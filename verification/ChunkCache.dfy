/** The chunk as it is kept: blocks updated in place, and the lazily rebuilt two-byte-per-block cache. */
module ChunkCaches {
  import opened Geometry
  import opened BlockTypes
  import opened Chunks

  const CACHE_BYTES: nat := 65536

  // ----- the packed form

  /** `b & 0xFB`. */
  function WithoutBit2(b: Byte): Byte {
    b - 4 * (b / 4 % 2)
  }

  function WaterCode(t: WaterType): Byte {
    match t
    case Ocean => 0
    case Lake => 1
    case River => 2
    case Swamp => 3
    case Spring => 4
  }

  /** The two bytes of an entry. */
  function Pack(m: Metadata): (Byte, Byte) {
    match m
    case ModelMeta(d) => (d.modelId, WithoutBit2(d.rotation) + (if d.waterlogged then 4 else 0))
    case Tint(t) => (0, t % 32)
    case PaintMeta(p) => (p.textureIdx, p.tintIdx % 32 + 32 * (p.blendMode % 8))
    case WaterMeta(t) => (0, WaterCode(t))
  }

  /** Byte j of a fresh pack of the sparse metadata. */
  function PackedByte(metadata: map<nat, Metadata>, j: nat): Byte {
    if j / 2 !in metadata then 0
    else if j % 2 == 0 then Pack(metadata[j / 2]).0 else Pack(metadata[j / 2]).1
  }

  /** A model's bytes give back its identifier, whether it is waterlogged, its turn and its edge mask. */
  lemma ModelDecodes(d: ModelData)
    ensures var (r, g) := Pack(ModelMeta(d));
            r == d.modelId && (g / 4 % 2 == 1 <==> d.waterlogged) && g % 4 == d.rotation % 4 && g / 8 == d.rotation / 8
  {}

  /** Paint made by its constructor can be read back from its bytes. */
  lemma PaintDecodes(p: PaintData)
    requires p.tintIdx < 32 && p.blendMode <= 4
    ensures var (r, g) := Pack(PaintMeta(p)); r == p.textureIdx && g % 32 == p.tintIdx && g / 32 == p.blendMode
  {}

  /** A tint is its own second byte, up to the 32 of the palette. */
  lemma TintDecodes(t: Byte)
    ensures Pack(Tint(t)).0 == 0 && (t < 32 ==> Pack(Tint(t)).1 == t) && Pack(Tint(t)).1 < 32
    ensures (t - Pack(Tint(t)).1) % 32 == 0
  {}

  /** The second byte of a water block tells where its water comes from, in the order of the types. */
  lemma WaterDecodes(t: WaterType)
    ensures Pack(WaterMeta(t)).0 == 0 && t == [Ocean, Lake, River, Swamp, Spring][Pack(WaterMeta(t)).1]
  {}

  class Chunk {
    const blocks: array<BlockType>
    var metadata: map<nat, Metadata>
    var modelMetadataBuf: array?<Byte>
    var modelMetadataDirty: bool
    var metadataWrittenIndices: seq<nat>
    var lightBlockCount: nat
    var dirty: bool
    var persistenceDirty: bool
    var mutationEpoch: nat
    var cachedIsEmpty: bool
    var cachedIsFullySolid: bool
    var metadataDirty: bool

    ghost function View(): State
      reads this, blocks
    {
      State(blocks[..], metadata, lightBlockCount, dirty, persistenceDirty, mutationEpoch,
            cachedIsEmpty, cachedIsFullySolid, metadataDirty, modelMetadataDirty)
    }

    /** Byte j of the cache; without a buffer all bytes are zero. */
    function CachedByte(j: nat): Byte
      requires modelMetadataBuf != null ==> j < modelMetadataBuf.Length
      reads this`modelMetadataBuf, modelMetadataBuf
    {
      if modelMetadataBuf == null then 0 else modelMetadataBuf[j]
    }

    /** All indices are inside the chunk, and only bytes written last time can be other than zero. */
    ghost predicate Shaped()
      reads this`metadata, this`metadataWrittenIndices, this`modelMetadataBuf, modelMetadataBuf
    {
      && blocks.Length == CHUNK_VOLUME
      && (forall i :: i in metadata ==> i < CHUNK_VOLUME)
      && (forall i :: i in metadataWrittenIndices ==> i < CHUNK_VOLUME)
      && (modelMetadataBuf != null ==>
            && modelMetadataBuf.Length == CACHE_BYTES
            && forall j :: 0 <= j < CACHE_BYTES && j / 2 !in metadataWrittenIndices ==> modelMetadataBuf[j] == 0)
    }

    /** Unless flagged, the cache is a fresh pack. */
    ghost predicate Coherent()
      reads this`metadata, this`metadataWrittenIndices, this`modelMetadataBuf, this`modelMetadataDirty, modelMetadataBuf
    {
      && Shaped()
      && (!modelMetadataDirty ==> forall j: nat :: j < CACHE_BYTES ==> CachedByte(j) == PackedByte(metadata, j))
    }

    constructor ()
      ensures Coherent() && View() == NewChunk(blocks[..], Air) && fresh(blocks)
      ensures forall i :: 0 <= i < CHUNK_VOLUME ==> blocks[..][i] == Air
    {
      blocks := new BlockType[CHUNK_VOLUME](_ => Air);
      metadata, modelMetadataBuf, modelMetadataDirty, metadataWrittenIndices := map[], null, false, [];
      lightBlockCount, dirty, persistenceDirty, mutationEpoch := 0, true, true, 0;
      cachedIsEmpty, cachedIsFullySolid, metadataDirty := true, false, false;
    }

    /** A chunk of one type of block. */
    constructor Filled(b: BlockType)
      ensures Coherent() && View() == NewChunk(blocks[..], b) && fresh(blocks)
      ensures forall i :: 0 <= i < CHUNK_VOLUME ==> blocks[..][i] == b
    {
      blocks := new BlockType[CHUNK_VOLUME](_ => b);
      metadata, modelMetadataBuf, modelMetadataDirty, metadataWrittenIndices := map[], null, false, [];
      lightBlockCount, dirty, persistenceDirty := if IsLightSource(b) then CHUNK_VOLUME else 0, true, true;
      mutationEpoch, cachedIsEmpty, cachedIsFullySolid, metadataDirty := 0, b == Air, IsSolid(b), false;
    }

    /** A chunk as received: its metadata and light count are not checked, and an index outside it breaks the cache. */
    constructor FromNetworkData(data: seq<BlockType>, metadata: map<nat, Metadata>, lightBlockCount: nat)
      requires |data| == CHUNK_VOLUME
      ensures View() == FromNetwork(data, metadata, lightBlockCount) && fresh(blocks)
      ensures Coherent() <==> forall i :: i in metadata ==> i < CHUNK_VOLUME
    {
      blocks := new BlockType[CHUNK_VOLUME](i requires 0 <= i < CHUNK_VOLUME => data[i]);
      this.metadata, modelMetadataBuf, modelMetadataDirty, metadataWrittenIndices := metadata, null, true, [];
      this.lightBlockCount, dirty, persistenceDirty, mutationEpoch := lightBlockCount, true, false, 0;
      cachedIsEmpty, cachedIsFullySolid, metadataDirty := AllAir(data), !AllAir(data) && AllSolid(data), false;
      new;
      assert blocks[..] == data;
    }

    // ----- setters

    method CountLights(was: BlockType, block: BlockType)
      modifies this`lightBlockCount
      ensures lightBlockCount == DecreasedBy(old(lightBlockCount), IsLightSource(was)) + (if IsLightSource(block) then 1 else 0)
    {
      if IsLightSource(was) && lightBlockCount > 0 {
        lightBlockCount := lightBlockCount - 1;
      }
      if IsLightSource(block) {
        lightBlockCount := lightBlockCount + 1;
      }
    }

    method Replace(idx: nat, block: BlockType, markPersistence: bool)
      requires blocks.Length == CHUNK_VOLUME && idx < CHUNK_VOLUME
      modifies this`lightBlockCount, this`dirty, this`persistenceDirty, this`mutationEpoch, this`metadataDirty, blocks
      ensures View() == ReplaceBlock(old(View()), idx, block, markPersistence)
    {
      CountLights(blocks[idx], block);
      blocks[idx] := block;
      assert blocks[..] == old(blocks[..])[idx := block];
      dirty := true;
      mutationEpoch := mutationEpoch + 1;
      if markPersistence {
        persistenceDirty := true;
      }
      metadataDirty := true;
    }

    method Drop(idx: nat, block: BlockType)
      requires Coherent()
      modifies this`metadata, this`modelMetadataDirty
      ensures Coherent() && View() == DropMismatched(old(View()), idx, block)
    {
      if idx in metadata && !MatchesBlock(metadata[idx], block) {
        metadata := metadata - {idx};
        modelMetadataDirty := true;
      }
    }

    method SetBlockInternal(x: nat, y: nat, z: nat, block: BlockType, markPersistence: bool)
      requires Coherent() && x < CHUNK_SIZE && y < CHUNK_SIZE && z < CHUNK_SIZE
      modifies this, blocks
      ensures Coherent() && View() == SetBlock(old(View()), Index(x, y, z), block, markPersistence)
      ensures var i := x + 32 * y + 1024 * z; var changed := old(blocks[..])[i] != block;
              && blocks[..] == old(blocks[..])[i := block] && metadata == LeftFor(old(metadata), i, old(blocks[..])[i], block)
              && mutationEpoch == old(mutationEpoch) + (if changed then 1 else 0) && dirty == (old(dirty) || changed)
              && persistenceDirty == (old(persistenceDirty) || (changed && markPersistence))
    {
      SetBlockLaw(View(), Index(x, y, z), block, markPersistence);
      SetBlockFlags(View(), Index(x, y, z), block, markPersistence);
      SetBlockAt(Index(x, y, z), block, markPersistence);
    }

    method SetBlockAt(idx: nat, block: BlockType, markPersistence: bool)
      requires Coherent() && idx < CHUNK_VOLUME
      modifies this, blocks
      ensures Coherent() && View() == SetBlock(old(View()), idx, block, markPersistence)
    {
      if blocks[idx] != block {
        Replace(idx, block, markPersistence);
        Drop(idx, block);
      }
    }

    method MarkMutated()
      modifies this`persistenceDirty, this`mutationEpoch
      ensures persistenceDirty && mutationEpoch == old(mutationEpoch) + 1
    {
      persistenceDirty := true;
      mutationEpoch := mutationEpoch + 1;
    }

    method AttachMetadata(idx: nat, m: Metadata)
      requires Coherent() && idx < CHUNK_VOLUME
      modifies this`metadata, this`modelMetadataDirty
      ensures Coherent() && View() == Attach(old(View()), idx, m)
    {
      metadata := metadata[idx := m];
      modelMetadataDirty := true;
    }

    method Touch()
      modifies this`dirty, this`metadataDirty, this`persistenceDirty, this`mutationEpoch
      ensures View() == Touched(old(View()))
    {
      dirty := true;
      metadataDirty := true;
      MarkMutated();
    }

    /** The funnel of all typed setters. */
    method SetBlockWithMetadata(x: nat, y: nat, z: nat, block: BlockType, m: Metadata)
      requires Coherent() && x < CHUNK_SIZE && y < CHUNK_SIZE && z < CHUNK_SIZE
      modifies this, blocks
      ensures Coherent() && View() == SetWithMetadata(old(View()), Index(x, y, z), block, m)
      ensures blocks[..] == old(blocks[..])[x + 32 * y + 1024 * z := block]
      ensures metadata == old(metadata)[x + 32 * y + 1024 * z := m]
      ensures dirty && persistenceDirty && modelMetadataDirty && mutationEpoch == old(mutationEpoch) + 1
    {
      StoredLaw(View(), Index(x, y, z), block, m);
      SetMetadataAt(Index(x, y, z), block, m);
    }

    method SetMetadataAt(idx: nat, block: BlockType, m: Metadata)
      requires Coherent() && idx < CHUNK_VOLUME
      modifies this, blocks
      ensures Coherent() && View() == SetWithMetadata(old(View()), idx, block, m)
    {
      var same := blocks[idx] == block;
      SetBlockAt(idx, block, true);
      AttachMetadata(idx, m);
      if same {
        Touch();
      }
    }

    method SetModelBlock(x: nat, y: nat, z: nat, modelId: Byte, rotation: Byte, waterlogged: bool)
      requires Coherent() && x < CHUNK_SIZE && y < CHUNK_SIZE && z < CHUNK_SIZE
      modifies this, blocks
      ensures Coherent()
      ensures View() == Apply(old(View()), SetMeta(Index(x, y, z), Model, ModelMeta(ModelData(modelId, rotation, waterlogged, 0))))
      ensures blocks[..] == old(blocks[..])[x + 32 * y + 1024 * z := Model]
      ensures metadata == old(metadata)[x + 32 * y + 1024 * z := ModelMeta(ModelData(modelId, rotation, waterlogged, 0))]
      ensures dirty && persistenceDirty && modelMetadataDirty && mutationEpoch == old(mutationEpoch) + 1
    {
      IndexIsBijection(x, y, z, Index(x, y, z));
      SetBlockWithMetadata(x, y, z, Model, ModelMeta(ModelData(modelId, rotation, waterlogged, 0)));
    }

    method SetTintedGlassBlock(x: nat, y: nat, z: nat, tint: Byte)
      requires Coherent() && x < CHUNK_SIZE && y < CHUNK_SIZE && z < CHUNK_SIZE
      modifies this, blocks
      ensures Coherent() && View() == Apply(old(View()), SetMeta(Index(x, y, z), TintedGlass, Tint(tint % 32)))
      ensures blocks[..] == old(blocks[..])[x + 32 * y + 1024 * z := TintedGlass]
      ensures metadata == old(metadata)[x + 32 * y + 1024 * z := Tint(tint % 32)]
      ensures dirty && persistenceDirty && modelMetadataDirty && mutationEpoch == old(mutationEpoch) + 1
    {
      SetBlockWithMetadata(x, y, z, TintedGlass, Tint(tint % 32));
    }

    method SetCrystalBlock(x: nat, y: nat, z: nat, tint: Byte)
      requires Coherent() && x < CHUNK_SIZE && y < CHUNK_SIZE && z < CHUNK_SIZE
      modifies this, blocks
      ensures Coherent() && View() == Apply(old(View()), SetMeta(Index(x, y, z), Crystal, Tint(tint % 32)))
      ensures blocks[..] == old(blocks[..])[x + 32 * y + 1024 * z := Crystal]
      ensures metadata == old(metadata)[x + 32 * y + 1024 * z := Tint(tint % 32)]
      ensures dirty && persistenceDirty && modelMetadataDirty && mutationEpoch == old(mutationEpoch) + 1
    {
      SetBlockWithMetadata(x, y, z, Crystal, Tint(tint % 32));
    }

    method SetPaintedBlock(x: nat, y: nat, z: nat, texture: Byte, tint: Byte, blend: Byte)
      requires Coherent() && x < CHUNK_SIZE && y < CHUNK_SIZE && z < CHUNK_SIZE
      modifies this, blocks
      ensures Coherent()
      ensures View() == Apply(old(View()), SetMeta(Index(x, y, z), Painted, PaintMeta(NewPaint(texture, tint, blend))))
      ensures blocks[..] == old(blocks[..])[x + 32 * y + 1024 * z := Painted]
      ensures metadata == old(metadata)[x + 32 * y + 1024 * z := PaintMeta(PaintData(texture, tint % 32, if blend < 4 then blend else 4))]
      ensures dirty && persistenceDirty && modelMetadataDirty && mutationEpoch == old(mutationEpoch) + 1
    {
      SetBlockWithMetadata(x, y, z, Painted, PaintMeta(NewPaint(texture, tint, blend)));
    }

    method SetWaterBlock(x: nat, y: nat, z: nat, waterType: WaterType)
      requires Coherent() && x < CHUNK_SIZE && y < CHUNK_SIZE && z < CHUNK_SIZE
      modifies this, blocks
      ensures Coherent() && View() == Apply(old(View()), SetMeta(Index(x, y, z), Water, WaterMeta(waterType)))
      ensures blocks[..] == old(blocks[..])[x + 32 * y + 1024 * z := Water]
      ensures metadata == old(metadata)[x + 32 * y + 1024 * z := WaterMeta(waterType)]
      ensures dirty && persistenceDirty && modelMetadataDirty && mutationEpoch == old(mutationEpoch) + 1
    {
      SetBlockWithMetadata(x, y, z, Water, WaterMeta(waterType));
    }

    method SetCustomData(x: nat, y: nat, z: nat, customData: nat)
      requires Coherent() && x < CHUNK_SIZE && y < CHUNK_SIZE && z < CHUNK_SIZE
      modifies this
      ensures Coherent() && View() == Apply(old(View()), SetCustom(Index(x, y, z), customData))
      ensures var i := x + 32 * y + 1024 * z;
              if i in old(metadata) && old(metadata)[i].ModelMeta? then
                && metadata == old(metadata)[i := ModelMeta(old(metadata)[i].model.(customData := customData))]
                && dirty && persistenceDirty && modelMetadataDirty && mutationEpoch == old(mutationEpoch) + 1
              else unchanged(this)
    {
      var idx := Index(x, y, z);
      if idx in metadata && metadata[idx].ModelMeta? {
        metadata := metadata[idx := ModelMeta(metadata[idx].model.(customData := customData))];
        dirty := true;
        MarkMutated();
        modelMetadataDirty := true;
      }
    }

    method SetModel(x: nat, y: nat, z: nat, data: ModelData)
      requires Coherent() && x < CHUNK_SIZE && y < CHUNK_SIZE && z < CHUNK_SIZE
      modifies this
      ensures Coherent() && View() == Apply(old(View()), SetData(Index(x, y, z), data))
      ensures metadata == old(metadata)[x + 32 * y + 1024 * z := ModelMeta(data)]
      ensures dirty && persistenceDirty && modelMetadataDirty && mutationEpoch == old(mutationEpoch) + 1
    {
      metadata := metadata[Index(x, y, z) := ModelMeta(data)];
      dirty := true;
      MarkMutated();
      modelMetadataDirty := true;
    }

    /** Entries whose rotation is out of date are collected first, then replaced. */
    method RecomputeFrameEdgeMasks()
      requires Coherent()
      modifies this
      ensures Coherent() && View() == Apply(old(View()), Recompute)
      ensures metadata.Keys == old(metadata).Keys && mutationEpoch == old(mutationEpoch)
      ensures forall i :: i in metadata ==>
                metadata[i] == if old(metadata)[i].ModelMeta? && 160 <= old(metadata)[i].model.modelId <= 175
                               then ModelMeta(old(metadata)[i].model.(rotation := FrameRotation(old(metadata)[i].model.customData)))
                               else old(metadata)[i]
    {
      var updates := FrameUpdates(metadata);
      RecomputedByUpdates(metadata);
      if updates != map[] {
        metadata := metadata + updates;
        modelMetadataDirty := true;
      }
    }

    // ----- caches

    /** The two flags, by full scans. */
    method RefreshFlags()
      requires Coherent()
      modifies this
      ensures Coherent() && View() == Apply(old(View()), Update)
    {
      if metadataDirty {
        var allAir := Scan(true);
        var allSolid := Scan(false);
        cachedIsEmpty, cachedIsFullySolid, metadataDirty := allAir, allSolid, false;
      }
    }

    method Scan(forAir: bool) returns (all: bool)
      ensures all == if forAir then AllAir(blocks[..]) else AllSolid(blocks[..])
    {
      for i := 0 to blocks.Length
        invariant if forAir then AllAir(blocks[..i]) else AllSolid(blocks[..i])
      {
        if forAir && blocks[i] != Air {
          assert blocks[..][i] != Air;
          return false;
        }
        if !forAir && !IsSolid(blocks[i]) {
          assert !IsSolid(blocks[..][i]);
          return false;
        }
        assert blocks[..i + 1] == blocks[..i] + [blocks[i]];
      }
      assert blocks[..blocks.Length] == blocks[..];
      return true;
    }

    /** Clears what the last rebuild wrote; then every byte is zero. */
    method ZeroWritten(buf: array<Byte>)
      requires Shaped() && buf == modelMetadataBuf
      modifies this`metadataWrittenIndices, buf
      ensures metadataWrittenIndices == [] && forall j :: 0 <= j < CACHE_BYTES ==> buf[j] == 0
    {
      var written := metadataWrittenIndices;
      for k := 0 to |written|
        invariant forall j :: 0 <= j < CACHE_BYTES && j / 2 !in written[k..] ==> buf[j] == 0
      {
        var idx := written[k];
        assert idx in written;
        buf[2 * idx] := 0;
        buf[2 * idx + 1] := 0;
        assert written[k..] == [idx] + written[k + 1..];
      }
      metadataWrittenIndices := [];
    }

    /** Writes every entry, in any order. */
    method PackEntries(buf: array<Byte>)
      requires blocks.Length == CHUNK_VOLUME && (forall i :: i in metadata ==> i < CHUNK_VOLUME)
      requires buf.Length == CACHE_BYTES && metadataWrittenIndices == [] && forall j :: 0 <= j < CACHE_BYTES ==> buf[j] == 0
      modifies this`metadataWrittenIndices, buf
      ensures forall j: nat :: j < CACHE_BYTES ==> buf[j] == PackedByte(metadata, j)
      ensures forall i :: i in metadataWrittenIndices <==> i in metadata
    {
      var todo := metadata.Keys;
      while todo != {}
        invariant todo <= metadata.Keys
        invariant forall i :: i in metadataWrittenIndices <==> i in metadata && i !in todo
        invariant forall j: nat :: j < CACHE_BYTES ==> buf[j] == if j / 2 in todo then 0 else PackedByte(metadata, j)
        decreases todo
      {
        var idx :| idx in todo;
        todo := todo - {idx};
        var packed := Pack(metadata[idx]);
        buf[2 * idx] := packed.0;
        buf[2 * idx + 1] := packed.1;
        metadataWrittenIndices := metadataWrittenIndices + [idx];
      }
    }

    /** Rebuilds the cache when it is flagged. A buffer is made only when needed, and never given up again. */
    method EnsureGpuMetadata()
      requires Coherent()
      modifies this, modelMetadataBuf
      ensures Coherent() && View() == Apply(old(View()), Ensure)
      ensures old(modelMetadataBuf) != null ==> modelMetadataBuf == old(modelMetadataBuf)
    {
      if modelMetadataDirty {
        if modelMetadataBuf == null && metadata != map[] {
          modelMetadataBuf := new Byte[CACHE_BYTES](_ => 0);
        }
        if modelMetadataBuf != null {
          ZeroWritten(modelMetadataBuf);
          PackEntries(modelMetadataBuf);
          PackedElsewhereIsZero(metadata);
        }
        modelMetadataDirty := false;
      }
    }

    /** The bytes for the GPU: a fresh pack of the metadata, whenever the flag is down. */
    method ModelMetadataBytes() returns (bytes: seq<Byte>)
      requires Coherent() && !modelMetadataDirty
      ensures |bytes| == CACHE_BYTES && forall j: nat :: j < CACHE_BYTES ==> bytes[j] == PackedByte(metadata, j)
    {
      if modelMetadataBuf == null {
        bytes := seq(CACHE_BYTES, _ => 0);
        assert forall j: nat :: j < CACHE_BYTES ==> bytes[j] == CachedByte(j);
      } else {
        bytes := modelMetadataBuf[..];
        assert forall j: nat :: j < CACHE_BYTES ==> bytes[j] == CachedByte(j);
      }
    }
  }

  function NewPaint(texture: Byte, tint: Byte, blend: Byte): PaintData {
    PaintData(texture, tint % 32, if blend < 4 then blend else 4)
  }

  lemma PackedElsewhereIsZero(metadata: map<nat, Metadata>)
    ensures forall j: nat :: j / 2 !in metadata ==> PackedByte(metadata, j) == 0
  {}

  function FrameUpdates(metadata: map<nat, Metadata>): map<nat, Metadata> {
    map i | i in metadata && Reframed(metadata[i]) != metadata[i] :: Reframed(metadata[i])
  }

  lemma RecomputedByUpdates(before: map<nat, Metadata>)
    ensures before + FrameUpdates(before) == Recomputed(before)
    ensures FrameUpdates(before) == map[] <==> before == Recomputed(before)
  {}
}
