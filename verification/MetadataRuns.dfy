/**
 Chunk metadata over whole runs of edits, loads, unloads, uploads, origin shifts and refreshes: the CPU
 copy catches up with the world, and the GPU copy with the CPU copy.
 */
module MetadataRuns {
  import opened Geometry
  import opened Streaming
  import opened Metadata

  /** The loaded chunks, those queued for upload, the texture's corner, and both copies of the metadata. */
  datatype App = App(world: map<Pos, Summary>, dirty: set<Pos>, origin: Pos, meta: Meta, gpu: Buffers)

  function PosOf(origin: Pos, i: nat): Pos {
    ChunkIndexToWorldPos(i, origin)
  }

  /** What slot i ought to say. */
  function Want(world: map<Pos, Summary>, origin: Pos, i: nat): Slot {
    var p := PosOf(origin, i);
    if p in world then SlotFor(world[p]) else Missing()
  }

  // ----- immediate updates of single slots

  datatype SlotUpdate = SlotUpdate(idx: nat, slot: Slot)

  ghost predicate InRange(updates: seq<SlotUpdate>) {
    forall u :: u in updates ==> u.idx < TOTAL_CHUNKS
  }

  /** Both copies of a slot, and the bit word it shares. */
  ghost function Direct(app: App, u: SlotUpdate): App
    requires u.idx < TOTAL_CHUNKS
  {
    var cpu := Put(app.meta.cpu, u.idx, u.slot);
    app.(meta := app.meta.(cpu := cpu), gpu := SyncSlot(app.gpu, cpu, u.idx))
  }

  ghost function DirectAll(app: App, updates: seq<SlotUpdate>): App
    requires InRange(updates)
  {
    if updates == [] then app else Direct(DirectAll(app, updates[..|updates| - 1]), updates[|updates| - 1])
  }

  /** The last update of slot i, if any. */
  function LastFor(updates: seq<SlotUpdate>, i: nat): Option<Slot> {
    if updates == [] then None
    else if updates[|updates| - 1].idx == i then Some(updates[|updates| - 1].slot)
    else LastFor(updates[..|updates| - 1], i)
  }

  lemma {:induction false} DirectAllAt(app: App, updates: seq<SlotUpdate>, i: nat)
    requires InRange(updates) && i < TOTAL_CHUNKS
    ensures var after, last := DirectAll(app, updates), LastFor(updates, i);
            At(after.meta.cpu, i) == if last.Some? then last.value else At(app.meta.cpu, i)
  {
    if updates != [] {
      var u := updates[|updates| - 1];
      DirectAllAt(app, updates[..|updates| - 1], i);
      PutAt(DirectAll(app, updates[..|updates| - 1]).meta.cpu, u.idx, u.slot, i);
    }
  }

  lemma {:induction false} DirectAllKeeps(app: App, updates: seq<SlotUpdate>)
    requires InRange(updates)
    ensures var after := DirectAll(app, updates);
            after.(meta := app.meta, gpu := app.gpu) == app && after.meta.(cpu := app.meta.cpu) == app.meta
  {
    if updates != [] {
      DirectAllKeeps(app, updates[..|updates| - 1]);
    }
  }

  lemma DirectMirrors(app: App, u: SlotUpdate)
    requires u.idx < TOTAL_CHUNKS && DataAgrees(app.gpu, app.meta.cpu)
    ensures var after := Direct(app, u);
            && DataAgrees(after.gpu, after.meta.cpu)
            && (BitsAgree(app.gpu, app.meta.cpu) ==> BitsAgree(after.gpu, after.meta.cpu))
  {
    var cpu := Put(app.meta.cpu, u.idx, u.slot);
    var after := Direct(app, u);
    forall i: nat | i < TOTAL_CHUNKS && !cpu.bits[i]
      ensures SameData(after.gpu, cpu, i)
    {
      PutAt(app.meta.cpu, u.idx, u.slot, i);
      SyncSlotAt(app.gpu, cpu, u.idx, i);
      if i != u.idx {
        assert SameData(app.gpu, app.meta.cpu, i);
      }
    }
    if BitsAgree(app.gpu, app.meta.cpu) {
      forall i: nat | i < TOTAL_CHUNKS
        ensures after.gpu.bits[i] == cpu.bits[i]
      {
        SyncSlotAt(app.gpu, cpu, u.idx, i);
      }
    }
  }

  lemma {:induction false} DirectAllMirrors(app: App, updates: seq<SlotUpdate>)
    requires InRange(updates) && DataAgrees(app.gpu, app.meta.cpu)
    ensures var after := DirectAll(app, updates);
            && DataAgrees(after.gpu, after.meta.cpu)
            && (BitsAgree(app.gpu, app.meta.cpu) ==> BitsAgree(after.gpu, after.meta.cpu))
  {
    if updates != [] {
      DirectAllMirrors(app, updates[..|updates| - 1]);
      DirectMirrors(DirectAll(app, updates[..|updates| - 1]), updates[|updates| - 1]);
    }
  }

  // ----- the operations

  /** The updates of the loaded chunks among the given positions; positions outside the texture have none. */
  function UpdatesOf(world: map<Pos, Summary>, origin: Pos, positions: seq<Pos>): (updates: seq<SlotUpdate>) {
    if positions == [] then [] else
      var rest, p := UpdatesOf(world, origin, positions[..|positions| - 1]), positions[|positions| - 1];
      var i := WorldPosToChunkIndex(origin, p);
      if p in world && i.Some? then rest + [SlotUpdate(i.value, SlotFor(world[p]))] else rest
  }

  datatype Load = Load(pos: Pos, summary: Summary)

  /** Chunks outside the texture are not taken. */
  function Kept(origin: Pos, loads: seq<Load>): seq<Load> {
    if loads == [] then [] else
      var rest, last := Kept(origin, loads[..|loads| - 1]), loads[|loads| - 1];
      if WorldPosToChunkIndex(origin, last.pos).Some? then rest + [last] else rest
  }

  function Inserted(world: map<Pos, Summary>, loads: seq<Load>): map<Pos, Summary> {
    if loads == [] then world else Inserted(world, loads[..|loads| - 1])[loads[|loads| - 1].pos := loads[|loads| - 1].summary]
  }

  function LoadUpdates(origin: Pos, loads: seq<Load>): (updates: seq<SlotUpdate>) {
    if loads == [] then [] else
      var rest, i := LoadUpdates(origin, loads[..|loads| - 1]), WorldPosToChunkIndex(origin, loads[|loads| - 1].pos);
      if i.Some? then rest + [SlotUpdate(i.value, SlotFor(loads[|loads| - 1].summary))] else rest
  }

  function Positions(loads: seq<Load>): set<Pos> {
    set l | l in loads :: l.pos
  }

  lemma {:induction false} UpdatesInRange(world: map<Pos, Summary>, origin: Pos, positions: seq<Pos>)
    ensures InRange(UpdatesOf(world, origin, positions))
  {
    if positions != [] {
      UpdatesInRange(world, origin, positions[..|positions| - 1]);
    }
  }

  lemma {:induction false} LoadsInRange(origin: Pos, loads: seq<Load>)
    ensures InRange(LoadUpdates(origin, loads))
  {
    if loads != [] {
      LoadsInRange(origin, loads[..|loads| - 1]);
    }
  }

  lemma LastForAppend(updates: seq<SlotUpdate>, u: SlotUpdate, i: nat)
    ensures LastFor(updates + [u], i) == if u.idx == i then Some(u.slot) else LastFor(updates, i)
  {}

  /** Uploading sets every loaded slot among the positions right, and touches no other. */
  lemma {:induction false} UpdatesAreRight(world: map<Pos, Summary>, origin: Pos, positions: seq<Pos>, i: nat)
    requires i < TOTAL_CHUNKS
    ensures LastFor(UpdatesOf(world, origin, positions), i)
            == if PosOf(origin, i) in positions && PosOf(origin, i) in world then Some(Want(world, origin, i)) else None
  {
    if positions != [] {
      var rest, p := positions[..|positions| - 1], positions[|positions| - 1];
      UpdatesAreRight(world, origin, rest, i);
      SlotsAreChunks(origin, i, p);
      var j := WorldPosToChunkIndex(origin, p);
      if p in world && j.Some? {
        LastForAppend(UpdatesOf(world, origin, rest), SlotUpdate(j.value, SlotFor(world[p])), i);
      }
    }
  }

  /** Loading sets the slots of all taken chunks right, even when a position is loaded twice. */
  lemma {:induction false} LoadsAreRight(world: map<Pos, Summary>, origin: Pos, loads: seq<Load>, i: nat)
    requires i < TOTAL_CHUNKS
    ensures LastFor(LoadUpdates(origin, loads), i)
            == if PosOf(origin, i) in Positions(loads) then Some(Want(Inserted(world, loads), origin, i)) else None
    ensures forall p :: p in Inserted(world, loads) <==> p in world || p in Positions(loads)
    ensures forall p :: p in world && p !in Positions(loads) ==> Inserted(world, loads)[p] == world[p]
  {
    if loads != [] {
      var rest, last := loads[..|loads| - 1], loads[|loads| - 1];
      LoadsAreRight(world, origin, rest, i);
      SlotsAreChunks(origin, i, last.pos);
      assert loads == rest + [last];
      assert Positions(loads) == Positions(rest) + {last.pos};
      var j := WorldPosToChunkIndex(origin, last.pos);
      if j.Some? {
        LastForAppend(LoadUpdates(origin, rest), SlotUpdate(j.value, SlotFor(last.summary)), i);
      }
    }
  }

  /** A block change: the chunk is created if need be and queued for upload. */
  function Edit(app: App, p: Pos, summary: Summary): App {
    app.(world := app.world[p := summary], dirty := app.dirty + {p})
  }

  /** `update_chunk_loading`: loaded chunks are uploaded at once, unloaded ones queued for a refresh. */
  ghost function LoadAndUnload(app: App, loads: seq<Load>, unloads: seq<Pos>): App {
    var kept := Kept(app.origin, loads);
    LoadsInRange(app.origin, kept);
    var moved := app.(world := Inserted(app.world, kept) - Elements(unloads), dirty := app.dirty - Positions(kept));
    var shown := DirectAll(moved, LoadUpdates(app.origin, kept));
    shown.(meta := QueueMany(shown.meta, app.origin, unloads))
  }

  /** `upload_world_to_gpu`: some chunks are queued again, then some of the queue is uploaded. */
  ghost function UploadWorld(app: App, requeued: seq<Pos>, drained: seq<Pos>): App {
    UpdatesInRange(app.world, app.origin, drained);
    var queued := app.(meta := QueueMany(app.meta, app.origin, requeued),
                       dirty := app.dirty + Elements(requeued) - Elements(drained));
    DirectAll(queued, UpdatesOf(app.world, app.origin, drained))
  }

  /** `upload_all_dirty_chunks`: everything dirty is uploaded, its metadata left to the refresh. */
  function UploadAll(app: App, uploaded: seq<Pos>): App {
    app.(meta := QueueMany(app.meta, app.origin, uploaded), dirty := app.dirty - Elements(uploaded))
  }

  /** An origin shift: everything is reset, the chunks near the player are shown at once. */
  ghost function Shift(app: App, origin: Pos, near: seq<Pos>): App {
    UpdatesInRange(app.world, origin, near);
    DirectAll(app.(origin := origin, meta := Reset(origin)), UpdatesOf(app.world, origin, near))
  }

  predicate NeedsReset(app: App) {
    app.meta.lastOrigin != app.origin || ShouldSeed(app.meta)
  }

  /** The slots of a list of indices, computed from the world. */
  ghost function PutAll(cpu: Buffers, work: seq<nat>, world: map<Pos, Summary>, origin: Pos): Buffers
    requires AreSlots(work)
  {
    if work == [] then cpu else
      var i := work[|work| - 1];
      Put(PutAll(cpu, work[..|work| - 1], world, origin), i, Want(world, origin, i))
  }

  ghost function SyncAll(gpu: Buffers, cpu: Buffers, work: seq<nat>): Buffers
    requires AreSlots(work)
  {
    if work == [] then gpu else SyncSlot(SyncAll(gpu, cpu, work[..|work| - 1]), cpu, work[|work| - 1])
  }

  function CurrentMeta(app: App): Meta {
    if app.meta.lastOrigin != app.origin then Reset(app.origin) else app.meta
  }

  /** One refresh of m within a budget, with the bits copied first on a reset. */
  ghost function Refreshed(app: App, m: Meta, reset: bool, budget: nat): App
    requires Scheduled(m)
  {
    WorkKeepsScheduled(m, budget);
    var work := Work(m, budget);
    var cpu := PutAll(m.cpu, work, app.world, app.origin);
    app.(meta := MarkApplied(AfterWork(m.(cpu := cpu), budget)),
         gpu := SyncAll(if reset then app.gpu.(bits := cpu.bits) else app.gpu, cpu, work))
  }

  /** `update_metadata_buffers`. */
  ghost function UpdateBuffers(app: App, budget: nat, resetBudget: nat): App
    requires Scheduled(app.meta)
  {
    var reset, m := NeedsReset(app), CurrentMeta(app);
    if !m.dirty && !reset then app.(meta := m)
    else Refreshed(app, m, reset, if reset then resetBudget else budget)
  }

  // ----- invariants

  predicate Right(app: App, i: nat)
    requires i < TOTAL_CHUNKS
  {
    At(app.meta.cpu, i) == Want(app.world, app.origin, i)
  }

  /** A wrong slot that will be put right: by a refresh, or by the upload of its queued chunk. */
  predicate Explained(app: App, i: nat) {
    Covered(app.meta, i) || (PosOf(app.origin, i) in app.dirty && PosOf(app.origin, i) in app.world)
  }

  ghost predicate Fresh(app: App) {
    forall i: nat :: i < TOTAL_CHUNKS ==> Right(app, i) || Explained(app, i)
  }

  /** The GPU copy: its data is right wherever it is looked at, and its bits are, or are about to be reset. */
  ghost predicate Mirrored(app: App) {
    DataAgrees(app.gpu, app.meta.cpu) && (BitsAgree(app.gpu, app.meta.cpu) || ShouldSeed(app.meta))
  }

  ghost predicate Good(app: App) {
    app.meta.lastOrigin == app.origin && Scheduled(app.meta) && Fresh(app) && Mirrored(app)
  }

  lemma ResetIsGood(app: App, origin: Pos)
    ensures Good(app.(origin := origin, meta := Reset(origin)))
  {}

  // ----- queueing

  lemma {:induction false} QueueManyCovers(m: Meta, origin: Pos, positions: seq<Pos>)
    requires Scheduled(m) && m.lastOrigin == origin
    ensures var after := QueueMany(m, origin, positions);
            && Scheduled(after) && after.lastOrigin == origin && after.cpu == m.cpu
            && (ShouldSeed(m) ==> ShouldSeed(after))
            && (forall i: nat :: Covered(m, i) ==> Covered(after, i))
            && (forall i: nat :: i < TOTAL_CHUNKS && PosOf(origin, i) in positions ==> Covered(after, i))
  {
    if positions != [] {
      var rest, p := positions[..|positions| - 1], positions[|positions| - 1];
      QueueManyCovers(m, origin, rest);
      QueueKeepsScheduled(QueueMany(m, origin, rest), origin, p);
      forall i: nat | i < TOTAL_CHUNKS && PosOf(origin, i) == p
        ensures Covered(QueueMany(m, origin, positions), i)
      {
        SlotsAreChunks(origin, i, p);
      }
    }
  }

  // ----- each operation keeps the invariants

  lemma EditKeepsGood(app: App, p: Pos, summary: Summary)
    requires Good(app)
    ensures Good(Edit(app, p, summary))
  {
    forall i: nat | i < TOTAL_CHUNKS
      ensures Right(Edit(app, p, summary), i) || Explained(Edit(app, p, summary), i)
    {
      assert Right(app, i) || Explained(app, i);
    }
  }

  /** Immediate updates keep the mirror and the schedule of any state. */
  lemma DirectAllKeepsRest(app: App, updates: seq<SlotUpdate>)
    requires InRange(updates) && Scheduled(app.meta) && Mirrored(app)
    ensures Scheduled(DirectAll(app, updates).meta) && Mirrored(DirectAll(app, updates))
  {
    DirectAllKeeps(app, updates);
    DirectAllMirrors(app, updates);
  }

  lemma LoadIsExplained(app: App, loads: seq<Load>, unloads: seq<Pos>, i: nat)
    requires Good(app) && i < TOTAL_CHUNKS
    ensures Right(LoadAndUnload(app, loads, unloads), i) || Explained(LoadAndUnload(app, loads, unloads), i)
  {
    var kept := Kept(app.origin, loads);
    LoadsInRange(app.origin, kept);
    var moved := app.(world := Inserted(app.world, kept) - Elements(unloads), dirty := app.dirty - Positions(kept));
    var shown := DirectAll(moved, LoadUpdates(app.origin, kept));
    DirectAllKeeps(moved, LoadUpdates(app.origin, kept));
    DirectAllAt(moved, LoadUpdates(app.origin, kept), i);
    LoadsAreRight(app.world, app.origin, kept, i);
    QueueManyCovers(shown.meta, app.origin, unloads);
    assert Right(app, i) || Explained(app, i);
    assert PosOf(app.origin, i) in Elements(unloads) ==> PosOf(app.origin, i) in unloads;
  }

  lemma LoadKeepsGood(app: App, loads: seq<Load>, unloads: seq<Pos>)
    requires Good(app)
    ensures Good(LoadAndUnload(app, loads, unloads))
  {
    var kept := Kept(app.origin, loads);
    LoadsInRange(app.origin, kept);
    var moved := app.(world := Inserted(app.world, kept) - Elements(unloads), dirty := app.dirty - Positions(kept));
    DirectAllKeepsRest(moved, LoadUpdates(app.origin, kept));
    DirectAllKeeps(moved, LoadUpdates(app.origin, kept));
    QueueManyCovers(DirectAll(moved, LoadUpdates(app.origin, kept)).meta, app.origin, unloads);
    forall i: nat | i < TOTAL_CHUNKS
      ensures Right(LoadAndUnload(app, loads, unloads), i) || Explained(LoadAndUnload(app, loads, unloads), i)
    {
      LoadIsExplained(app, loads, unloads, i);
    }
  }

  lemma UploadKeepsGood(app: App, requeued: seq<Pos>, drained: seq<Pos>)
    requires Good(app)
    ensures Good(UploadWorld(app, requeued, drained))
  {
    UpdatesInRange(app.world, app.origin, drained);
    QueueManyCovers(app.meta, app.origin, requeued);
    var queued := app.(meta := QueueMany(app.meta, app.origin, requeued),
                       dirty := app.dirty + Elements(requeued) - Elements(drained));
    var updates := UpdatesOf(app.world, app.origin, drained);
    DirectAllKeepsRest(queued, updates);
    DirectAllKeeps(queued, updates);
    forall i: nat | i < TOTAL_CHUNKS
      ensures Right(UploadWorld(app, requeued, drained), i) || Explained(UploadWorld(app, requeued, drained), i)
    {
      DirectAllAt(queued, updates, i);
      UpdatesAreRight(app.world, app.origin, drained, i);
      assert Right(app, i) || Explained(app, i);
    }
  }

  lemma UploadAllKeepsGood(app: App, uploaded: seq<Pos>)
    requires Good(app)
    ensures Good(UploadAll(app, uploaded))
  {
    QueueManyCovers(app.meta, app.origin, uploaded);
    forall i: nat | i < TOTAL_CHUNKS
      ensures Right(UploadAll(app, uploaded), i) || Explained(UploadAll(app, uploaded), i)
    {
      assert Right(app, i) || Explained(app, i);
    }
  }

  lemma ShiftKeepsGood(app: App, origin: Pos, near: seq<Pos>)
    ensures Good(Shift(app, origin, near))
  {
    var reset := app.(origin := origin, meta := Reset(origin));
    UpdatesInRange(app.world, origin, near);
    ResetIsGood(app, origin);
    DirectAllKeepsRest(reset, UpdatesOf(app.world, origin, near));
    DirectAllKeeps(reset, UpdatesOf(app.world, origin, near));
    assert forall i: nat :: i < TOTAL_CHUNKS ==> Explained(Shift(app, origin, near), i);
  }

  lemma RefreshKeepsGood(app: App)
    requires Good(app)
    ensures Good(app.(meta := RequestFullRefresh(app.meta, app.origin)))
  {}

  // ----- the refresh

  lemma {:induction false} PutAllAt(cpu: Buffers, work: seq<nat>, world: map<Pos, Summary>, origin: Pos, i: nat)
    requires AreSlots(work) && i < TOTAL_CHUNKS
    ensures At(PutAll(cpu, work, world, origin), i) == if i in work then Want(world, origin, i) else At(cpu, i)
  {
    if work != [] {
      var k := work[|work| - 1];
      PutAllAt(cpu, work[..|work| - 1], world, origin, i);
      PutAt(PutAll(cpu, work[..|work| - 1], world, origin), k, Want(world, origin, k), i);
    }
  }

  lemma {:induction false} SyncAllAt(gpu: Buffers, cpu: Buffers, work: seq<nat>, i: nat)
    requires AreSlots(work) && i < TOTAL_CHUNKS
    ensures var after := SyncAll(gpu, cpu, work);
            && At(after, i).(empty := true) == (if i in work then At(cpu, i) else At(gpu, i)).(empty := true)
            && (after.bits[i] == cpu.bits[i] || (after.bits[i] == gpu.bits[i] && i !in work))
  {
    if work != [] {
      SyncAllAt(gpu, cpu, work[..|work| - 1], i);
      SyncSlotAt(SyncAll(gpu, cpu, work[..|work| - 1]), cpu, work[|work| - 1], i);
    }
  }

  lemma RefreshMirrors(app: App, m: Meta, reset: bool, budget: nat)
    requires Scheduled(m) && DataAgrees(app.gpu, m.cpu) && (reset || BitsAgree(app.gpu, m.cpu))
    ensures var after := Refreshed(app, m, reset, budget);
            BitsAgree(after.gpu, after.meta.cpu) && DataAgrees(after.gpu, after.meta.cpu)
  {
    WorkKeepsScheduled(m, budget);
    var work := Work(m, budget);
    var cpu := PutAll(m.cpu, work, app.world, app.origin);
    var gpu := if reset then app.gpu.(bits := cpu.bits) else app.gpu;
    var after := SyncAll(gpu, cpu, work);
    forall i: nat | i < TOTAL_CHUNKS
      ensures after.bits[i] == cpu.bits[i] && (!cpu.bits[i] ==> SameData(after, cpu, i))
    {
      PutAllAt(m.cpu, work, app.world, app.origin, i);
      SyncAllAt(gpu, cpu, work, i);
      if i !in work && !cpu.bits[i] {
        assert SameData(app.gpu, m.cpu, i);
      }
    }
  }

  lemma RefreshIsFresh(app: App, m: Meta, reset: bool, budget: nat)
    requires Scheduled(m) && Fresh(app.(meta := m))
    ensures Fresh(Refreshed(app, m, reset, budget))
  {
    WorkKeepsScheduled(m, budget);
    var work := Work(m, budget);
    var cpu := PutAll(m.cpu, work, app.world, app.origin);
    forall i: nat | i < TOTAL_CHUNKS
      ensures Right(Refreshed(app, m, reset, budget), i) || Explained(Refreshed(app, m, reset, budget), i)
    {
      PutAllAt(m.cpu, work, app.world, app.origin, i);
      assert Right(app.(meta := m), i) || Explained(app.(meta := m), i);
      if Covered(m, i) {
        WorkOrCovered(m, budget, i);
      }
    }
  }

  /** At the end of every refresh call the two copies agree on all bits and on the data of all non-empty slots. */
  lemma UpdateMirrors(app: App, budget: nat, resetBudget: nat)
    requires Good(app)
    ensures var after := UpdateBuffers(app, budget, resetBudget);
            BitsAgree(after.gpu, after.meta.cpu) && DataAgrees(after.gpu, after.meta.cpu)
  {
    if app.meta.dirty || NeedsReset(app) {
      RefreshMirrors(app, app.meta, NeedsReset(app), if NeedsReset(app) then resetBudget else budget);
    }
  }

  lemma UpdateKeepsGood(app: App, budget: nat, resetBudget: nat)
    requires Good(app)
    ensures Good(UpdateBuffers(app, budget, resetBudget))
  {
    UpdateMirrors(app, budget, resetBudget);
    if app.meta.dirty || NeedsReset(app) {
      var b := if NeedsReset(app) then resetBudget else budget;
      RefreshIsFresh(app, app.meta, NeedsReset(app), b);
      WorkKeepsScheduled(app.meta, b);
    }
  }

  // ----- runs

  datatype Op =
    | EditOp(pos: Pos, summary: Summary)
    | LoadOp(loads: seq<Load>, unloads: seq<Pos>)
    | UploadOp(requeued: seq<Pos>, drained: seq<Pos>)
    | UploadAllOp(uploaded: seq<Pos>)
    | ShiftOp(origin: Pos, near: seq<Pos>)
    | RefreshOp
    | UpdateOp(budget: nat, resetBudget: nat)

  ghost function Next(app: App, op: Op): App
    requires Scheduled(app.meta)
  {
    match op
    case EditOp(p, summary) => Edit(app, p, summary)
    case LoadOp(loads, unloads) => LoadAndUnload(app, loads, unloads)
    case UploadOp(requeued, drained) => UploadWorld(app, requeued, drained)
    case UploadAllOp(uploaded) => UploadAll(app, uploaded)
    case ShiftOp(origin, near) => Shift(app, origin, near)
    case RefreshOp => app.(meta := RequestFullRefresh(app.meta, app.origin))
    case UpdateOp(budget, resetBudget) => UpdateBuffers(app, budget, resetBudget)
  }

  lemma StepKeepsGood(app: App, op: Op)
    requires Good(app)
    ensures Good(Next(app, op))
  {
    match op
    case EditOp(p, summary) => EditKeepsGood(app, p, summary);
    case LoadOp(loads, unloads) => LoadKeepsGood(app, loads, unloads);
    case UploadOp(requeued, drained) => UploadKeepsGood(app, requeued, drained);
    case UploadAllOp(uploaded) => UploadAllKeepsGood(app, uploaded);
    case ShiftOp(origin, near) => ShiftKeepsGood(app, origin, near);
    case RefreshOp => RefreshKeepsGood(app);
    case UpdateOp(budget, resetBudget) => UpdateKeepsGood(app, budget, resetBudget);
  }

  /** A run of operations leads from one state to another. */
  ghost predicate Leads(app: App, ops: seq<Op>, end: App)
    decreases ops
  {
    if ops == [] then app == end else Scheduled(app.meta) && Leads(Next(app, ops[0]), ops[1..], end)
  }

  /** Every run from a new state, whatever the world and the GPU's initial contents. */
  lemma {:induction false} GoodOverRun(app: App, ops: seq<Op>, end: App)
    requires Good(app) && Leads(app, ops, end)
    ensures Good(end)
    decreases ops
  {
    if ops != [] {
      StepKeepsGood(app, ops[0]);
      GoodOverRun(Next(app, ops[0]), ops[1..], end);
    }
  }

  lemma FreshOverRun(world: map<Pos, Summary>, dirty: set<Pos>, origin: Pos, gpu: Buffers, ops: seq<Op>, end: App)
    requires Leads(App(world, dirty, origin, Reset(origin), gpu), ops, end)
    ensures Fresh(end) && Mirrored(end)
  {
    ResetIsGood(App(world, dirty, origin, Reset(origin), gpu), origin);
    GoodOverRun(App(world, dirty, origin, Reset(origin), gpu), ops, end);
  }

  /** When nothing is left to do, the GPU shows every slot as the world has it. */
  lemma QuietIsRight(app: App, i: nat)
    requires Good(app) && i < TOTAL_CHUNKS
    requires !app.meta.dirty && forall p :: p in app.dirty ==> p !in app.world
    ensures app.gpu.bits[i] == Want(app.world, app.origin, i).empty
    ensures !app.gpu.bits[i] ==> At(app.gpu, i) == Want(app.world, app.origin, i)
  {
    assert Right(app, i) || Explained(app, i);
    if !app.gpu.bits[i] {
      assert SameData(app.gpu, app.meta.cpu, i);
      assert At(app.gpu, i) == At(app.gpu, i).(empty := true).(empty := false);
      assert At(app.meta.cpu, i) == At(app.meta.cpu, i).(empty := true).(empty := false);
    }
  }

  /** One call works off its budget, and leaves the state dirty exactly while something is left. */
  lemma UpdateShrinks(app: App, budget: nat, resetBudget: nat)
    requires Good(app)
    ensures var after, b := UpdateBuffers(app, budget, resetBudget).meta, if NeedsReset(app) then resetBudget else budget;
            && Backlog(after) == (if Backlog(app.meta) <= b then 0 else Backlog(app.meta) - b)
            && (after.dirty <==> Backlog(app.meta) > b)
  {
    if app.meta.dirty || NeedsReset(app) {
      var b := if NeedsReset(app) then resetBudget else budget;
      WorkKeepsScheduled(app.meta, b);
      var cpu := PutAll(app.meta.cpu, Work(app.meta, b), app.world, app.origin);
      BacklogShrinks(app.meta.(cpu := cpu), b);
    }
  }

  /** n refresh calls in a row. */
  ghost function Updates(app: App, n: nat, budget: nat, resetBudget: nat): App
    requires Good(app)
    ensures Good(Updates(app, n, budget, resetBudget))
  {
    if n == 0 then app else
      var before := Updates(app, n - 1, budget, resetBudget);
      UpdateKeepsGood(before, budget, resetBudget);
      UpdateBuffers(before, budget, resetBudget)
  }

  /** With budgets of at least one slot a call, as many calls as there are slots left end the work. */
  lemma {:induction false} UpdatesEnd(app: App, n: nat, budget: nat, resetBudget: nat)
    requires Good(app) && budget > 0 && resetBudget > 0
    ensures var after := Updates(app, n, budget, resetBudget);
            && Backlog(after.meta) <= (if Backlog(app.meta) <= n then 0 else Backlog(app.meta) - n)
            && (n > 0 && Backlog(app.meta) <= n ==> !after.meta.dirty)
  {
    if n > 0 {
      UpdatesEnd(app, n - 1, budget, resetBudget);
      var before := Updates(app, n - 1, budget, resetBudget);
      UpdateShrinks(before, budget, resetBudget);
    }
  }
}
