/**
 What the GPU shows between the writes of one refresh. The data of a slot is written before its own bit,
 but bits travel in words of 32, and a reset copies all bits first: when that is in order, and when not.
 */
module MetadataOrder {
  import opened Geometry
  import opened Streaming
  import opened Metadata
  import opened MetadataRuns

  /** No slot is shown as non-empty before its mask and its distances have been written. */
  ghost predicate Shown(gpu: Buffers, cpu: Buffers) {
    forall j: nat :: j < TOTAL_CHUNKS && !gpu.bits[j] ==> SameData(gpu, cpu, j)
  }

  /** One slot copied: in order exactly when the other non-empty slots of its word had their data already. */
  lemma SyncSlotShownIff(gpu: Buffers, cpu: Buffers, i: nat)
    requires i < TOTAL_CHUNKS && Shown(gpu, cpu)
    ensures Shown(SyncSlot(gpu, cpu, i), cpu)
            <==> forall j: nat :: j < TOTAL_CHUNKS && j / 32 == i / 32 && j != i && !cpu.bits[j] ==> SameData(gpu, cpu, j)
  {
    forall j: nat | j < TOTAL_CHUNKS
      ensures var after := SyncSlot(gpu, cpu, i);
              && after.bits[j] == (if j / 32 == i / 32 then cpu.bits[j] else gpu.bits[j])
              && (SameData(after, cpu, j) <==> j == i || SameData(gpu, cpu, j))
    {
      SyncSlotAt(gpu, cpu, i, j);
    }
  }

  /** The bits copied first, as a reset does: in order exactly when every non-empty slot had its data already. */
  lemma BitsFirstShownIff(gpu: Buffers, cpu: Buffers)
    ensures Shown(gpu.(bits := cpu.bits), cpu) <==> DataAgrees(gpu, cpu)
  {
    forall j: nat | j < TOTAL_CHUNKS
      ensures SameData(gpu.(bits := cpu.bits), cpu, j) <==> SameData(gpu, cpu, j)
    {
      assert At(gpu.(bits := cpu.bits), j).(empty := true) == At(gpu, j).(empty := true);
    }
  }

  // ----- all the copies of a refresh

  /** Some slot of the word of j is among those copied. */
  ghost predicate WordWritten(work: seq<nat>, j: nat) {
    exists i :: i in work && i / 32 == j / 32
  }

  lemma {:induction false} SyncAllBits(gpu: Buffers, cpu: Buffers, work: seq<nat>, j: nat)
    requires AreSlots(work) && j < TOTAL_CHUNKS
    ensures SyncAll(gpu, cpu, work).bits[j] == if WordWritten(work, j) then cpu.bits[j] else gpu.bits[j]
  {
    if work != [] {
      var init, last := work[..|work| - 1], work[|work| - 1];
      SyncAllBits(gpu, cpu, init, j);
      SyncSlotAt(SyncAll(gpu, cpu, init), cpu, last, j);
      WordWrittenNext(work, j);
    }
  }

  lemma WordWrittenNext(work: seq<nat>, j: nat)
    requires work != []
    ensures WordWritten(work, j) <==> WordWritten(work[..|work| - 1], j) || work[|work| - 1] / 32 == j / 32
  {
    var init, last := work[..|work| - 1], work[|work| - 1];
    assert last in work && forall i :: i in work <==> i in init || i == last;
  }

  /** When slot work[k] is copied, every other non-empty slot of its word is copied already or has its data. */
  ghost predicate InOrderAt(gpu: Buffers, cpu: Buffers, work: seq<nat>, k: nat)
    requires k < |work|
  {
    forall j: nat :: j < TOTAL_CHUNKS && j / 32 == work[k] / 32 && j !in work[..k + 1] && !cpu.bits[j] ==> SameData(gpu, cpu, j)
  }

  lemma ShownAfter(gpu: Buffers, cpu: Buffers, work: seq<nat>, k: nat)
    requires AreSlots(work) && k <= |work| && Shown(gpu, cpu)
    requires forall m :: 0 <= m < k ==> InOrderAt(gpu, cpu, work, m)
    ensures Shown(SyncAll(gpu, cpu, work[..k]), cpu)
  {
    var after := SyncAll(gpu, cpu, work[..k]);
    forall j: nat | j < TOTAL_CHUNKS && !after.bits[j]
      ensures SameData(after, cpu, j)
    {
      SyncAllAt(gpu, cpu, work[..k], j);
      SyncAllBits(gpu, cpu, work[..k], j);
      if j !in work[..k] && WordWritten(work[..k], j) {
        var i :| i in work[..k] && i / 32 == j / 32;
        var m :| 0 <= m < k && work[m] == i;
        assert work[..m + 1] <= work[..k];
        assert InOrderAt(gpu, cpu, work, m);
      }
    }
  }

  lemma ShownIsInOrder(gpu: Buffers, cpu: Buffers, work: seq<nat>, k: nat)
    requires AreSlots(work) && k < |work| && Shown(SyncAll(gpu, cpu, work[..k + 1]), cpu)
    ensures InOrderAt(gpu, cpu, work, k)
  {
    var after := SyncAll(gpu, cpu, work[..k + 1]);
    forall j: nat | j < TOTAL_CHUNKS && j / 32 == work[k] / 32 && j !in work[..k + 1] && !cpu.bits[j]
      ensures SameData(gpu, cpu, j)
    {
      SyncAllAt(gpu, cpu, work[..k + 1], j);
      SyncAllBits(gpu, cpu, work[..k + 1], j);
      assert work[k] in work[..k + 1] && WordWritten(work[..k + 1], j);
      assert SameData(after, cpu, j);
    }
  }

  /** Between any two copies of a refresh: nothing is shown early exactly when that holds at first and each copy is in order. */
  lemma CopiesShownIff(gpu: Buffers, cpu: Buffers, work: seq<nat>)
    requires AreSlots(work)
    ensures (forall k :: 0 <= k <= |work| ==> Shown(SyncAll(gpu, cpu, work[..k]), cpu))
            <==> Shown(gpu, cpu) && forall k :: 0 <= k < |work| ==> InOrderAt(gpu, cpu, work, k)
  {
    assert work[..0] == [];
    if forall k :: 0 <= k <= |work| ==> Shown(SyncAll(gpu, cpu, work[..k]), cpu) {
      assert Shown(SyncAll(gpu, cpu, work[..0]), cpu);
      forall k | 0 <= k < |work|
        ensures InOrderAt(gpu, cpu, work, k)
      {
        assert Shown(SyncAll(gpu, cpu, work[..k + 1]), cpu);
        ShownIsInOrder(gpu, cpu, work, k);
      }
    }
    if Shown(gpu, cpu) && forall k :: 0 <= k < |work| ==> InOrderAt(gpu, cpu, work, k) {
      forall k | 0 <= k <= |work|
        ensures Shown(SyncAll(gpu, cpu, work[..k]), cpu)
      {
        ShownAfter(gpu, cpu, work, k);
      }
    }
  }

  /** A reset, between any two of its copies: nothing is shown early exactly when every non-empty slot had its data before. */
  lemma ResetShownIff(gpu: Buffers, cpu: Buffers, work: seq<nat>)
    requires AreSlots(work)
    ensures (forall k :: 0 <= k <= |work| ==> Shown(SyncAll(gpu.(bits := cpu.bits), cpu, work[..k]), cpu)) <==> DataAgrees(gpu, cpu)
  {
    var first := gpu.(bits := cpu.bits);
    CopiesShownIff(first, cpu, work);
    BitsFirstShownIff(gpu, cpu);
    if DataAgrees(gpu, cpu) {
      forall k | 0 <= k < |work|
        ensures InOrderAt(first, cpu, work, k)
      {
        assert forall j: nat :: j < TOTAL_CHUNKS && !first.bits[j] ==> SameData(first, cpu, j);
      }
    }
  }

  /** The CPU copy with which a refresh call fills the GPU. */
  ghost function NewCpu(app: App, budget: nat): Buffers
    requires Scheduled(app.meta)
  {
    WorkKeepsScheduled(app.meta, budget);
    PutAll(app.meta.cpu, Work(app.meta, budget), app.world, app.origin)
  }

  /** Two slots of one call share a word, and the second is non-empty and has changed: its bit goes ahead of its data. */
  predicate ShownEarly(app: App, work: seq<nat>, k: nat, l: nat)
    requires k < l < |work| && work[l] < TOTAL_CHUNKS
  {
    var want := Want(app.world, app.origin, work[l]);
    && work[k] / 32 == work[l] / 32 && work[l] !in work[..k + 1]
    && !want.empty && At(app.gpu, work[l]).(empty := true) != want.(empty := true)
  }

  /**
   A refresh call without a reset, from any good state: at every moment non-empty slots have their data,
   exactly when no slot shown so far is about to change, and no slot is shown with an earlier slot of its word.
   The condition speaks of the state and the work before the call.
   */
  lemma RefreshShownIff(app: App, budget: nat)
    requires Good(app) && !NeedsReset(app)
    ensures AreSlots(Work(app.meta, budget))
    ensures var work, cpu := Work(app.meta, budget), NewCpu(app, budget);
            (forall k :: 0 <= k <= |work| ==> Shown(SyncAll(app.gpu, cpu, work[..k]), cpu))
            <==> && (forall i: nat :: i in work && !app.gpu.bits[i] ==>
                       At(app.gpu, i).(empty := true) == Want(app.world, app.origin, i).(empty := true))
                 && (forall k: nat, l: nat :: k < l < |work| ==> !ShownEarly(app, work, k, l))
  {
    WorkKeepsScheduled(app.meta, budget);
    var work, cpu := Work(app.meta, budget), NewCpu(app, budget);
    CopiesShownIff(app.gpu, cpu, work);
    forall i: nat | i < TOTAL_CHUNKS
      ensures i in work ==> At(cpu, i) == Want(app.world, app.origin, i)
      ensures i !in work ==> At(cpu, i) == At(app.meta.cpu, i) && app.gpu.bits[i] == cpu.bits[i]
                             && (!cpu.bits[i] ==> SameData(app.gpu, cpu, i))
    {
      PutAllAt(app.meta.cpu, work, app.world, app.origin, i);
      assert !app.meta.cpu.bits[i] ==> SameData(app.gpu, app.meta.cpu, i);
    }
    InOrderIff(app, cpu, work);
    assert Shown(app.gpu, cpu) <==> forall i: nat :: i in work && !app.gpu.bits[i] ==> SameData(app.gpu, cpu, i);
  }

  lemma InOrderIff(app: App, cpu: Buffers, work: seq<nat>)
    requires AreSlots(work)
    requires forall i: nat :: i in work ==> At(cpu, i) == Want(app.world, app.origin, i)
    requires forall i: nat :: i < TOTAL_CHUNKS && i !in work && !cpu.bits[i] ==> SameData(app.gpu, cpu, i)
    ensures (forall k :: 0 <= k < |work| ==> InOrderAt(app.gpu, cpu, work, k))
            <==> forall k: nat, l: nat :: k < l < |work| ==> !ShownEarly(app, work, k, l)
  {
    if k: nat, l: nat :| k < l < |work| && ShownEarly(app, work, k, l) {
      assert !SameData(app.gpu, cpu, work[l]);
      assert !InOrderAt(app.gpu, cpu, work, k);
    } else {
      forall k, j: nat | 0 <= k < |work| && j < TOTAL_CHUNKS && j / 32 == work[k] / 32 && j !in work[..k + 1] && !cpu.bits[j]
        ensures SameData(app.gpu, cpu, j)
      {
        if j in work {
          assert work == work[..k + 1] + work[k + 1..];
          var m :| 0 <= m < |work[k + 1..]| && work[k + 1..][m] == j;
          var l := k + 1 + m;
          assert !ShownEarly(app, work, k, l);
        }
      }
    }
  }

  // ----- the documented order fails

  /** A chunk that is solid throughout. */
  function Full(): Summary {
    SvtMetadata(Repeat(64, true), Repeat(64, 0))
  }

  /** Two neighbouring chunks are loaded; the GPU's buffers are blank. */
  function TwoChunks(): App {
    App(map[Pos(1, 0, 0) := Full(), Pos(2, 0, 0) := Full()], {}, Pos(0, 0, 0), Reset(Pos(0, 0, 0)), Blank())
  }

  lemma TwoChunksWant(i: nat)
    requires i < 3
    ensures Want(TwoChunks().world, Pos(0, 0, 0), i) == if i == 0 then Missing() else SlotFor(Full())
    ensures At(Blank(), i) == Missing()
  {
    assert PosOf(Pos(0, 0, 0), i) == Pos(i, 0, 0);
    assert At(Blank(), i).dist == Missing().dist;
  }

  lemma FullDiffers()
    ensures !SlotFor(Full()).empty && SlotFor(Full()).low != Missing().low
  {
    assert Full().brickMask[0] && SlotFor(Full()).low[0] && !Missing().low[0];
  }

  lemma FirstWork(origin: Pos, cpu: Buffers)
    ensures var m := Reset(origin).(cpu := cpu);
            Scheduled(m) && Work(m, 1) == [0] && MarkApplied(AfterWork(m, 1)) == m.(cursor := 1)
  {
    SweepsAre();
  }

  lemma RefreshedOne(app: App, cpu: Buffers)
    requires app.meta == Reset(app.origin) && cpu == PutAll(app.meta.cpu, [0], app.world, app.origin)
    requires Scheduled(app.meta) && Work(app.meta, 1) == [0]
    requires MarkApplied(AfterWork(app.meta.(cpu := cpu), 1)) == app.meta.(cpu := cpu, cursor := 1)
    ensures UpdateBuffers(app, 0, 1)
            == app.(meta := app.meta.(cpu := cpu, cursor := 1), gpu := SyncAll(app.gpu.(bits := cpu.bits), cpu, [0]))
  {}

  /** The first refresh after a reset, of one slot: the sweep stands at slot 1, no data but that of slot 0 has changed. */
  lemma FirstRefresh(app: App)
    requires app.meta == Reset(app.origin)
    ensures Scheduled(app.meta)
    ensures var after := UpdateBuffers(app, 0, 1);
            && after == app.(meta := Reset(app.origin).(cpu := after.meta.cpu, cursor := 1), gpu := after.gpu)
            && At(after.gpu, 2).low == At(app.gpu, 2).low
  {
    var cpu := PutAll(app.meta.cpu, [0], app.world, app.origin);
    FirstWork(app.origin, app.meta.cpu);
    FirstWork(app.origin, cpu);
    RefreshedOne(app, cpu);
    FirstCopy(app.gpu, cpu);
  }

  lemma FirstCopy(gpu: Buffers, cpu: Buffers)
    ensures At(SyncAll(gpu.(bits := cpu.bits), cpu, [0]), 2).low == At(gpu, 2).low
  {
    SyncAllAt(gpu.(bits := cpu.bits), cpu, [0], 2);
    assert At(gpu.(bits := cpu.bits), 2).low == At(gpu, 2).low;
  }

  lemma StepLeads(app: App, op: Op)
    requires Good(app)
    ensures Leads(app, [op], Next(app, op)) && Good(Next(app, op))
  {
    StepKeepsGood(app, op);
    assert [op][1..] == [];
    assert Leads(Next(app, op), [], Next(app, op));
  }

  /** A state in which slots 1 and 2 come next, and slot 2 is going to be non-empty with other data. */
  lemma SecondIsShownEarly(app: App)
    requires Good(app) && Work(app.meta, 2) == [1, 2]
    requires !Want(app.world, app.origin, 2).empty && Want(app.world, app.origin, 2).low != At(app.gpu, 2).low
    ensures var cpu := NewCpu(app, 2);
            !SyncSlot(app.gpu, cpu, 1).bits[2] && !SameData(SyncSlot(app.gpu, cpu, 1), cpu, 2)
  {
    PutAllAt(app.meta.cpu, [1, 2], app.world, app.origin, 2);
    SyncSlotAt(app.gpu, NewCpu(app, 2), 1, 2);
  }

  lemma SweepsAre()
    ensures Sweep(0, 1) == [0] && Sweep(0, 2) == [0, 1] && Sweep(1, 2) == [1, 2]
  {
    assert Sweep(0, 0) == [] && Sweep(1, 0) == [];
    assert Sweep(0, 1) == [0] && Sweep(1, 1) == [1];
  }

  /**
   A reachable good state. The next call works on slots 1 and 2: when slot 1 has been copied, slot 2 is
   shown as non-empty, with the data of a missing chunk.
   */
  lemma NeighbourIsShownEarly() returns (app: App)
    ensures Leads(TwoChunks(), [UpdateOp(0, 1)], app) && Good(app) && !NeedsReset(app) && Work(app.meta, 2) == [1, 2]
    ensures var cpu := NewCpu(app, 2);
            !SyncSlot(app.gpu, cpu, 1).bits[2] && !SameData(SyncSlot(app.gpu, cpu, 1), cpu, 2)
  {
    app := SweptOne(TwoChunks());
    WorkNext(app.meta);
    TwoChunksWant(2);
    FullDiffers();
    SecondIsShownEarly(app);
  }

  lemma WorkNext(m: Meta)
    requires m.pending == [] && m.fullRefresh && m.cursor == 1
    ensures Work(m, 2) == [1, 2]
  {
    SweepsAre();
  }

  lemma SweptOne(app: App) returns (after: App)
    requires app.meta == Reset(app.origin)
    ensures Leads(app, [UpdateOp(0, 1)], after) && Good(after)
    ensures after.world == app.world && after.origin == app.origin && At(after.gpu, 2).low == At(app.gpu, 2).low
    ensures after.meta == Reset(app.origin).(cpu := after.meta.cpu, cursor := 1)
  {
    ResetIsGood(app, app.origin);
    StepLeads(app, UpdateOp(0, 1));
    after := Next(app, UpdateOp(0, 1));
    FirstRefresh(app);
  }

  /** A reset that works on slot 1 shows it as non-empty by the copy of all bits, before any data is written. */
  lemma ResetIsShownEarly()
    ensures Good(TwoChunks()) && NeedsReset(TwoChunks()) && Work(TwoChunks().meta, 2) == [0, 1]
    ensures var gpu, cpu := TwoChunks().gpu, NewCpu(TwoChunks(), 2);
            !cpu.bits[1] && !SameData(gpu.(bits := cpu.bits), cpu, 1)
  {
    var app := TwoChunks();
    ResetIsGood(app, app.origin);
    SweepsAre();
    TwoChunksWant(1);
    FullDiffers();
    FirstIsShownEarly(app);
  }

  lemma FirstIsShownEarly(app: App)
    requires Good(app) && Work(app.meta, 2) == [0, 1]
    requires !Want(app.world, app.origin, 1).empty && Want(app.world, app.origin, 1).low != At(app.gpu, 1).low
    ensures var cpu := NewCpu(app, 2);
            !cpu.bits[1] && !SameData(app.gpu.(bits := cpu.bits), cpu, 1)
  {
    PutAllAt(app.meta.cpu, [0, 1], app.world, app.origin, 1);
    assert At(app.gpu.(bits := NewCpu(app, 2).bits), 1).low == At(app.gpu, 1).low;
  }
}
