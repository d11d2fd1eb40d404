/**
 A chunk's blocks and sparse metadata, and everything derived from them: the light count, the
 empty/solid flags, the dirty flags, and the mutation epoch that outside caches compare.
 */
module Chunks {
  import opened Geometry
  import opened BlockTypes

  /** `BlockModelData`; the source keeps custom data in 32 bits. */
  datatype ModelData = ModelData(modelId: Byte, rotation: Byte, waterlogged: bool, customData: nat)

  datatype PaintData = PaintData(textureIdx: Byte, tintIdx: Byte, blendMode: Byte)

  /** At most one entry per block. */
  datatype Metadata = ModelMeta(model: ModelData) | Tint(tint: Byte) | PaintMeta(paint: PaintData) | WaterMeta(waterType: WaterType)

  predicate MatchesBlock(m: Metadata, b: BlockType) {
    match m
    case ModelMeta(_) => b == Model
    case Tint(_) => b == TintedGlass || b == Crystal
    case PaintMeta(_) => b == Painted
    case WaterMeta(_) => b == Water
  }

  /** Each kind of entry belongs to one block, tints to two. */
  lemma FitsIff(m: Metadata, b: BlockType)
    ensures MatchesBlock(m, b) <==> || (b == Model && m.ModelMeta?) || (b == TintedGlass && m.Tint?) || (b == Crystal && m.Tint?)
                                    || (b == Painted && m.PaintMeta?) || (b == Water && m.WaterMeta?)
  {}

  // ----- indices

  function Index(x: nat, y: nat, z: nat): nat {
    x + y * CHUNK_SIZE + z * CHUNK_SIZE * CHUNK_SIZE
  }

  function IndexToCoords(idx: nat): (nat, nat, nat) {
    (idx % CHUNK_SIZE, idx / CHUNK_SIZE % CHUNK_SIZE, idx / (CHUNK_SIZE * CHUNK_SIZE))
  }

  /** Coordinates inside the chunk and indices into its volume are in one-to-one correspondence. */
  lemma IndexIsBijection(x: nat, y: nat, z: nat, idx: nat)
    requires x < CHUNK_SIZE && y < CHUNK_SIZE && z < CHUNK_SIZE && idx < CHUNK_VOLUME
    ensures Index(x, y, z) < CHUNK_VOLUME
    ensures Index(x, y, z) == idx <==> IndexToCoords(idx) == (x, y, z)
  {
    assert idx == idx % 32 + 32 * (idx / 32 % 32) + 1024 * (idx / 1024) by {
      assert idx / 32 / 32 == idx / 1024;
    }
  }

  // ----- scans

  function CountLight(blocks: seq<BlockType>): nat {
    if blocks == [] then 0 else
      CountLight(blocks[..|blocks| - 1]) + (if IsLightSource(blocks[|blocks| - 1]) then 1 else 0)
  }

  predicate AllAir(blocks: seq<BlockType>) {
    forall i :: 0 <= i < |blocks| ==> blocks[i] == Air
  }

  predicate AllSolid(blocks: seq<BlockType>) {
    forall i :: 0 <= i < |blocks| ==> IsSolid(blocks[i])
  }

  /** Replacing one block changes the number of light sources by what went and what came. */
  lemma {:induction false} CountAfterSet(blocks: seq<BlockType>, i: nat, b: BlockType)
    requires i < |blocks|
    ensures CountLight(blocks[i := b])
            == CountLight(blocks) - (if IsLightSource(blocks[i]) then 1 else 0) + (if IsLightSource(b) then 1 else 0)
    ensures IsLightSource(blocks[i]) ==> CountLight(blocks) > 0
  {
    var last := |blocks| - 1;
    if i == last {
      assert blocks[i := b][..last] == blocks[..last];
    } else {
      CountAfterSet(blocks[..last], i, b);
      assert blocks[i := b][..last] == blocks[..last][i := b];
    }
  }

  lemma {:induction false} CountOfOneKind(blocks: seq<BlockType>, b: BlockType)
    requires forall i :: 0 <= i < |blocks| ==> blocks[i] == b
    ensures CountLight(blocks) == if IsLightSource(b) then |blocks| else 0
  {
    if blocks != [] {
      CountOfOneKind(blocks[..|blocks| - 1], b);
    }
  }

  // ----- the state

  datatype State = State(
    blocks: seq<BlockType>, metadata: map<nat, Metadata>, lightBlockCount: nat,
    dirty: bool, persistenceDirty: bool, epoch: nat,
    cachedIsEmpty: bool, cachedIsFullySolid: bool, metadataDirty: bool, modelMetadataDirty: bool)

  /** What is saved, sent and drawn. */
  function Content(s: State): (seq<BlockType>, map<nat, Metadata>) {
    (s.blocks, s.metadata)
  }

  function NewChunk(blocks: seq<BlockType>, b: BlockType): State {
    State(blocks, map[], if IsLightSource(b) then CHUNK_VOLUME else 0, true, true, 0, b == Air, IsSolid(b), false, false)
  }

  function DecreasedBy(count: nat, wasLight: bool): nat {
    if wasLight && count > 0 then count - 1 else count
  }

  /** The block, the light count and the flags. */
  function ReplaceBlock(s: State, i: nat, b: BlockType, persist: bool): State
    requires i < |s.blocks|
  {
    s.(blocks := s.blocks[i := b],
       lightBlockCount := DecreasedBy(s.lightBlockCount, IsLightSource(s.blocks[i])) + (if IsLightSource(b) then 1 else 0),
       dirty := true, persistenceDirty := s.persistenceDirty || persist, epoch := s.epoch + 1, metadataDirty := true)
  }

  /** Metadata that does not fit the new block goes. */
  function DropMismatched(s: State, i: nat, b: BlockType): State {
    if i in s.metadata && !MatchesBlock(s.metadata[i], b)
    then s.(metadata := s.metadata - {i}, modelMetadataDirty := true) else s
  }

  /** `set_block_internal`: nothing when the block is the same. */
  function SetBlock(s: State, i: nat, b: BlockType, persist: bool): State
    requires i < |s.blocks|
  {
    if s.blocks[i] == b then s else DropMismatched(ReplaceBlock(s, i, b, persist), i, b)
  }

  function Attach(s: State, i: nat, m: Metadata): State {
    s.(metadata := s.metadata[i := m], modelMetadataDirty := true)
  }

  function Touched(s: State): State {
    s.(dirty := true, metadataDirty := true, persistenceDirty := true, epoch := s.epoch + 1)
  }

  /** `set_block_with_metadata`: also counts as a change when only the metadata is new. */
  function SetWithMetadata(s: State, i: nat, b: BlockType, m: Metadata): State
    requires i < |s.blocks|
  {
    var attached := Attach(SetBlock(s, i, b, true), i, m);
    if s.blocks[i] == b then Touched(attached) else attached
  }

  /** The metadata left by a setter that brings none: without the entry of i exactly when it does not fit a new block. */
  function LeftFor(metadata: map<nat, Metadata>, i: nat, was: BlockType, b: BlockType): map<nat, Metadata> {
    if was != b && i in metadata && !MatchesBlock(metadata[i], b) then metadata - {i} else metadata
  }

  lemma DropLaw(s: State, i: nat, was: BlockType, b: BlockType)
    requires was != b
    ensures var t := DropMismatched(s, i, b);
            t.metadata == LeftFor(s.metadata, i, was, b) && t.blocks == s.blocks && t.epoch == s.epoch && t.dirty == s.dirty
            && t.persistenceDirty == s.persistenceDirty && t.metadataDirty == s.metadataDirty
  {}

  /** What a plain setter leaves. */
  lemma SetBlockLaw(s: State, i: nat, b: BlockType, persist: bool)
    requires i < |s.blocks|
    ensures SetBlock(s, i, b, persist).blocks == s.blocks[i := b]
    ensures SetBlock(s, i, b, persist).metadata == LeftFor(s.metadata, i, s.blocks[i], b)
  {
    if s.blocks[i] != b {
      DropLaw(ReplaceBlock(s, i, b, persist), i, s.blocks[i], b);
    } else {
      assert s.blocks[i := b] == s.blocks;
    }
  }

  /** The flags it raises, if the block is another. */
  lemma SetBlockFlags(s: State, i: nat, b: BlockType, persist: bool)
    requires i < |s.blocks|
    ensures var t, changed := SetBlock(s, i, b, persist), s.blocks[i] != b;
            && t.epoch == s.epoch + (if changed then 1 else 0) && t.dirty == (s.dirty || changed)
            && t.persistenceDirty == (s.persistenceDirty || (changed && persist)) && t.metadataDirty == (s.metadataDirty || changed)
  {
    if s.blocks[i] != b {
      DropLaw(ReplaceBlock(s, i, b, persist), i, s.blocks[i], b);
    }
  }

  /** Read-back: the block and its entry are there, every other block and entry is as before, and all flags are up. */
  lemma StoredLaw(s: State, i: nat, b: BlockType, m: Metadata)
    requires i < |s.blocks|
    ensures var t := SetWithMetadata(s, i, b, m);
            && t.blocks == s.blocks[i := b] && t.metadata == s.metadata[i := m] && t.epoch == s.epoch + 1
            && t.dirty && t.persistenceDirty && t.metadataDirty && t.modelMetadataDirty
  {
    SetBlockLaw(s, i, b, true);
    SetBlockFlags(s, i, b, true);
    assert (s.metadata - {i})[i := m] == s.metadata[i := m];
  }

  /** `set_model_custom_data`: nothing unless the entry is a model's. */
  function SetModelCustomData(s: State, i: nat, customData: nat): State {
    if i in s.metadata && s.metadata[i].ModelMeta?
    then s.(metadata := s.metadata[i := ModelMeta(s.metadata[i].model.(customData := customData))],
            dirty := true, persistenceDirty := true, epoch := s.epoch + 1, modelMetadataDirty := true)
    else s
  }

  /** `set_model_data`: unchecked. */
  function SetModelData(s: State, i: nat, data: ModelData): State {
    s.(metadata := s.metadata[i := ModelMeta(data)],
       dirty := true, persistenceDirty := true, epoch := s.epoch + 1, modelMetadataDirty := true)
  }

  const FIRST_FRAME_ID: int := 160
  const LAST_FRAME_ID: int := 175

  predicate IsFrame(m: Metadata) {
    m.ModelMeta? && FIRST_FRAME_ID <= m.model.modelId <= LAST_FRAME_ID
  }

  /** Two bits of custom data from bit `shift` on, where unit is 2 to the shift. */
  function Field(customData: nat, unit: nat): nat
    requires unit > 0
  {
    customData / unit % 4
  }

  function Bit(b: bool, weight: nat): nat {
    if b then weight else 0
  }

  /** Facing in bits 0-1, edge mask from bit 3 on. */
  function FrameRotation(customData: nat): (r: Byte) {
    var offsetX, offsetY := Field(customData, 0x10_0000), Field(customData, 0x40_0000);
    var width, height := Field(customData, 0x100_0000) + 1, Field(customData, 0x400_0000) + 1;
    Field(customData, 0x1000_0000)
    + 8 * (Bit(offsetX == 0, 1) + Bit(offsetX + 1 == width, 2) + Bit(offsetY == 0, 4) + Bit(offsetY + 1 == height, 8))
  }

  lemma MaskBits(mask: nat, a: bool, b: bool, c: bool, d: bool)
    requires mask == Bit(a, 1) + Bit(b, 2) + Bit(c, 4) + Bit(d, 8)
    ensures (mask % 2 == 1 <==> a) && (mask / 2 % 2 == 1 <==> b) && (mask / 4 % 2 == 1 <==> c) && (mask / 8 == 1 <==> d) && mask < 16
  {}

  /** The packed rotation tells the facing and, bit by bit, which edges of the cluster the frame is at. */
  lemma RotationTellsEdges(customData: nat)
    ensures var facing, mask := FrameRotation(customData) % 8, FrameRotation(customData) / 8;
            && facing == customData / 0x1000_0000 % 4 && mask < 16
            && (mask % 2 == 1 <==> customData / 0x10_0000 % 4 == 0)
            && (mask / 2 % 2 == 1 <==> customData / 0x10_0000 % 4 == customData / 0x100_0000 % 4)
            && (mask / 4 % 2 == 1 <==> customData / 0x40_0000 % 4 == 0)
            && (mask / 8 == 1 <==> customData / 0x40_0000 % 4 == customData / 0x400_0000 % 4)
  {
    var x, y := Field(customData, 0x10_0000), Field(customData, 0x40_0000);
    var width, height := Field(customData, 0x100_0000), Field(customData, 0x400_0000);
    var mask := Bit(x == 0, 1) + Bit(x == width, 2) + Bit(y == 0, 4) + Bit(y == height, 8);
    MaskBits(mask, x == 0, x == width, y == 0, y == height);
    assert FrameRotation(customData) == Field(customData, 0x1000_0000) + 8 * mask;
  }

  function Reframed(m: Metadata): Metadata {
    if IsFrame(m) then ModelMeta(m.model.(rotation := FrameRotation(m.model.customData))) else m
  }

  function Recomputed(metadata: map<nat, Metadata>): map<nat, Metadata> {
    map i | i in metadata :: Reframed(metadata[i])
  }

  /** `recompute_frame_edge_masks`: edits metadata, and marks only the byte cache. */
  function RecomputeFrames(s: State): State {
    var after := Recomputed(s.metadata);
    s.(metadata := after, modelMetadataDirty := s.modelMetadataDirty || after != s.metadata)
  }

  function UpdateMetadata(s: State): State {
    if !s.metadataDirty then s
    else s.(cachedIsEmpty := AllAir(s.blocks), cachedIsFullySolid := AllSolid(s.blocks), metadataDirty := false)
  }

  /** `from_network_data`: caches from the blocks, metadata and light count as received. */
  function FromNetwork(blocks: seq<BlockType>, metadata: map<nat, Metadata>, lightBlockCount: nat): State {
    State(blocks, metadata, lightBlockCount, true, false, 0,
          AllAir(blocks), !AllAir(blocks) && AllSolid(blocks), false, true)
  }

  // ----- derived state

  ghost predicate LightCounted(s: State) {
    s.lightBlockCount == CountLight(s.blocks)
  }

  /** Clean flags are the result of a full scan. */
  ghost predicate FlagsRight(s: State) {
    !s.metadataDirty ==> s.cachedIsEmpty == AllAir(s.blocks) && s.cachedIsFullySolid == AllSolid(s.blocks)
  }

  ghost predicate MetadataMatches(s: State) {
    forall i :: i in s.metadata ==> i < |s.blocks| && MatchesBlock(s.metadata[i], s.blocks[i])
  }

  ghost predicate Derived(s: State) {
    |s.blocks| == CHUNK_VOLUME && LightCounted(s) && FlagsRight(s) && MetadataMatches(s)
  }

  function IsEmpty(s: State): bool {
    if s.metadataDirty then AllAir(s.blocks) else s.cachedIsEmpty
  }

  function IsFullySolid(s: State): bool {
    if s.metadataDirty then AllSolid(s.blocks) else s.cachedIsFullySolid
  }

  /** The cached answers are always the scanned ones. */
  lemma AnswersAreScans(s: State)
    requires Derived(s)
    ensures IsEmpty(s) == AllAir(s.blocks) && IsFullySolid(s) == AllSolid(s.blocks)
  {}

  datatype Op =
    | Set(i: nat, block: BlockType, persist: bool)
    | SetMeta(i: nat, block: BlockType, meta: Metadata)
    | SetCustom(i: nat, customData: nat)
    | SetData(i: nat, data: ModelData)
    | Recompute
    | Update
    | Ensure
    | MarkDirty
    | MarkClean
    | MarkSaved

  function Apply(s: State, op: Op): State
    requires |s.blocks| == CHUNK_VOLUME && ((op.Set? || op.SetMeta?) ==> op.i < CHUNK_VOLUME)
  {
    match op
    case Set(i, b, persist) => SetBlock(s, i, b, persist)
    case SetMeta(i, b, m) => SetWithMetadata(s, i, b, m)
    case SetCustom(i, customData) => SetModelCustomData(s, i, customData)
    case SetData(i, data) => SetModelData(s, i, data)
    case Recompute => RecomputeFrames(s)
    case Update => UpdateMetadata(s)
    case Ensure => s.(modelMetadataDirty := false)
    case MarkDirty => s.(dirty := true)
    case MarkClean => s.(dirty := false)
    case MarkSaved => s.(persistenceDirty := false)
  }

  /** Inside the chunk, and with metadata of the right kind: every typed setter passes only such operations. */
  predicate Typed(op: Op) {
    match op
    case Set(i, _, _) => i < CHUNK_VOLUME
    case SetMeta(i, b, m) => i < CHUNK_VOLUME && MatchesBlock(m, b)
    case SetData(i, _) => i < CHUNK_VOLUME
    case _ => true
  }

  lemma SetKeepsMatches(s: State, i: nat, b: BlockType, persist: bool)
    requires MetadataMatches(s) && i < |s.blocks|
    ensures MetadataMatches(SetBlock(s, i, b, persist))
  {}

  lemma SetFields(s: State, i: nat, b: BlockType, persist: bool)
    requires i < |s.blocks| && s.blocks[i] != b
    ensures var t := SetBlock(s, i, b, persist);
            && t.blocks == s.blocks[i := b] && t.metadataDirty
            && t.lightBlockCount == DecreasedBy(s.lightBlockCount, IsLightSource(s.blocks[i])) + (if IsLightSource(b) then 1 else 0)
  {}

  lemma CountStep(blocks: seq<BlockType>, i: nat, b: BlockType, count: nat)
    requires i < |blocks| && count == CountLight(blocks)
    ensures DecreasedBy(count, IsLightSource(blocks[i])) + (if IsLightSource(b) then 1 else 0) == CountLight(blocks[i := b])
  {
    CountAfterSet(blocks, i, b);
  }

  lemma DerivedFromParts(t: State)
    requires |t.blocks| == CHUNK_VOLUME && LightCounted(t) && t.metadataDirty && MetadataMatches(t)
    ensures Derived(t)
  {}

  lemma SetKeepsDerived(s: State, i: nat, b: BlockType, persist: bool)
    requires Derived(s) && i < CHUNK_VOLUME
    ensures Derived(SetBlock(s, i, b, persist))
  {
    if s.blocks[i] != b {
      SetFields(s, i, b, persist);
      CountStep(s.blocks, i, b, s.lightBlockCount);
      SetKeepsMatches(s, i, b, persist);
      DerivedFromParts(SetBlock(s, i, b, persist));
    }
  }

  /** Metadata attached to a block of its kind; unless the block was new, the flags go up. */
  lemma AttachKeepsDerived(s: State, t: State, i: nat, m: Metadata)
    requires Derived(s) && i < CHUNK_VOLUME && MatchesBlock(m, s.blocks[i])
    requires t.blocks == s.blocks && t.metadata == s.metadata[i := m] && t.lightBlockCount == s.lightBlockCount
    requires t.metadataDirty || (s.metadataDirty == t.metadataDirty && s.cachedIsEmpty == t.cachedIsEmpty
                                 && s.cachedIsFullySolid == t.cachedIsFullySolid)
    ensures Derived(t)
  {}

  lemma SetMetaKeepsDerived(s: State, i: nat, b: BlockType, m: Metadata)
    requires Derived(s) && i < CHUNK_VOLUME && MatchesBlock(m, b)
    ensures Derived(SetWithMetadata(s, i, b, m))
  {
    SetKeepsDerived(s, i, b, true);
    if s.blocks[i] != b {
      SetFields(s, i, b, true);
    }
    AttachKeepsDerived(SetBlock(s, i, b, true), SetWithMetadata(s, i, b, m), i, m);
  }

  lemma OtherKeepsDerived(s: State, op: Op)
    requires Derived(s) && !op.Set? && !op.SetMeta? && !op.SetData?
    ensures Derived(Apply(s, op))
  {}

  /** The unchecked setter keeps metadata and blocks in step exactly when the block is a model. */
  lemma SetDataKeepsDerivedIff(s: State, i: nat, data: ModelData)
    requires Derived(s) && i < CHUNK_VOLUME
    ensures Derived(SetModelData(s, i, data)) <==> s.blocks[i] == Model
  {}

  /** The number of positions that give light. */
  function LightsIn(blocks: seq<BlockType>): set<nat> {
    set i: nat | i < |blocks| && IsLightSource(blocks[i])
  }

  lemma {:induction false} CountIsNumber(blocks: seq<BlockType>)
    ensures CountLight(blocks) == |LightsIn(blocks)|
  {
    if blocks != [] {
      var init, n := blocks[..|blocks| - 1], |blocks| - 1;
      CountIsNumber(init);
      assert LightsIn(blocks) == LightsIn(init) + (if IsLightSource(blocks[n]) then {n} else {});
    }
  }

  /** Network data is taken as it is: the chunk starts right exactly when count and metadata say what the blocks say. */
  lemma NetworkIsDerivedIff(blocks: seq<BlockType>, metadata: map<nat, Metadata>, lightBlockCount: nat)
    requires |blocks| == CHUNK_VOLUME
    ensures Derived(FromNetwork(blocks, metadata, lightBlockCount))
            <==> lightBlockCount == |LightsIn(blocks)|
                 && forall i :: i in metadata ==> i < CHUNK_VOLUME && MatchesBlock(metadata[i], blocks[i])
  {
    CountIsNumber(blocks);
  }

  lemma NewIsDerived(blocks: seq<BlockType>, b: BlockType)
    requires |blocks| == CHUNK_VOLUME && forall i :: 0 <= i < CHUNK_VOLUME ==> blocks[i] == b
    ensures Derived(NewChunk(blocks, b))
  {
    CountOfOneKind(blocks, b);
    assert blocks[0] == b;
  }

  // ----- runs

  ghost predicate Leads(s: State, ops: seq<Op>, end: State)
    decreases ops
  {
    if ops == [] then s == end
    else |s.blocks| == CHUNK_VOLUME && Typed(ops[0]) && Leads(Apply(s, ops[0]), ops[1..], end)
  }

  /** Every run of setters, but the unchecked one, keeps the derived state right. */
  lemma {:induction false} DerivedOverRun(s: State, ops: seq<Op>, end: State)
    requires Derived(s) && Leads(s, ops, end) && forall op :: op in ops ==> !op.SetData?
    ensures Derived(end)
    decreases ops
  {
    if ops != [] {
      var op := ops[0];
      if op.Set? {
        SetKeepsDerived(s, op.i, op.block, op.persist);
      } else if op.SetMeta? {
        SetMetaKeepsDerived(s, op.i, op.block, op.meta);
      } else {
        OtherKeepsDerived(s, op);
      }
      DerivedOverRun(Apply(s, ops[0]), ops[1..], end);
    }
  }

  /** What every operation but frame recomputation does to the epoch. */
  ghost predicate Advances(s: State, after: State) {
    s.epoch <= after.epoch && (Content(after) != Content(s) ==> s.epoch < after.epoch && after.dirty)
  }

  lemma SetAdvances(s: State, i: nat, b: BlockType, persist: bool)
    requires i < |s.blocks|
    ensures Advances(s, SetBlock(s, i, b, persist))
    ensures s.blocks[i] != b ==> s.epoch < SetBlock(s, i, b, persist).epoch && SetBlock(s, i, b, persist).dirty
  {}

  lemma SetMetaAdvances(s: State, i: nat, b: BlockType, m: Metadata)
    requires i < |s.blocks|
    ensures Advances(s, SetWithMetadata(s, i, b, m))
  {
    SetAdvances(s, i, b, true);
  }

  /** An operation that changes blocks or metadata raises the epoch and marks the chunk for upload. */
  lemma OpRaisesEpoch(s: State, op: Op)
    requires |s.blocks| == CHUNK_VOLUME && Typed(op) && !op.Recompute?
    ensures Advances(s, Apply(s, op))
  {
    if op.Set? {
      SetAdvances(s, op.i, op.block, op.persist);
    } else if op.SetMeta? {
      SetMetaAdvances(s, op.i, op.block, op.meta);
    } else {
      OtherAdvances(s, op);
    }
  }

  lemma OtherAdvances(s: State, op: Op)
    requires |s.blocks| == CHUNK_VOLUME && !op.Set? && !op.SetMeta? && !op.Recompute?
    ensures Advances(s, Apply(s, op))
  {}

  /** Without frame recomputation: states of one chunk with the same epoch have the same blocks and metadata. */
  lemma {:induction false} EpochTellsContent(s: State, ops: seq<Op>, end: State)
    requires Leads(s, ops, end) && forall op :: op in ops ==> !op.Recompute?
    ensures s.epoch <= end.epoch
    ensures s.epoch == end.epoch ==> Content(end) == Content(s)
    decreases ops
  {
    if ops != [] {
      OpRaisesEpoch(s, ops[0]);
      EpochTellsContent(Apply(s, ops[0]), ops[1..], end);
    }
  }

  /** Frame recomputation keeps the epoch, so it is noticed by outside caches exactly when it changes nothing. */
  lemma RecomputeKeepsContentIff(s: State)
    ensures RecomputeFrames(s).epoch == s.epoch
    ensures Content(RecomputeFrames(s)) == Content(s)
            <==> forall i :: i in s.metadata && IsFrame(s.metadata[i]) ==>
                   s.metadata[i].model.rotation == FrameRotation(s.metadata[i].model.customData)
  {}

  /**
   The documented lockstep of epoch and save flag: a change of the epoch leaves the chunk marked for saving,
   exactly unless a different block is generated, with nothing else left to save.
   */
  lemma LockstepIff(s: State, op: Op)
    requires |s.blocks| == CHUNK_VOLUME && Typed(op)
    ensures (Apply(s, op).epoch > s.epoch ==> Apply(s, op).persistenceDirty)
            <==> !(op.Set? && !op.persist && s.blocks[op.i] != op.block && !s.persistenceDirty)
  {
    if op.Set? {
      SetSaves(s, op.i, op.block, op.persist);
    } else if op.SetMeta? {
      SetSaves(s, op.i, op.block, true);
    }
  }

  lemma SetSaves(s: State, i: nat, b: BlockType, persist: bool)
    requires i < |s.blocks|
    ensures var t := SetBlock(s, i, b, persist);
            if s.blocks[i] == b then t == s
            else t.epoch == s.epoch + 1 && (t.persistenceDirty <==> s.persistenceDirty || persist)
  {}

  /** A generated block raises the epoch without asking for a save: the two do not advance in lockstep. */
  lemma GeneratedIsNotSaved(s: State, i: nat, b: BlockType)
    requires i < |s.blocks| && s.blocks[i] != b && !s.persistenceDirty
    ensures SetBlock(s, i, b, false).epoch == s.epoch + 1 && !SetBlock(s, i, b, false).persistenceDirty
  {}
}
