/** What a chunk's metadata slot says about its blocks: the tree and the streamed metadata joined. */
module ChunkSummaries {
  import opened Geometry
  import opened BlockTypes
  import opened Streaming
  import opened Metadata
  import opened MetadataRuns
  import Svt
  import BrickDistances

  /** What the refresh takes from the tree of a chunk. */
  function SummaryOf(svt: Svt.ChunkSVT): Summary
    requires Svt.Valid(svt)
  {
    SvtMetadata(svt.brickMask, seq(64, i requires 0 <= i < 64 => DistanceByte(svt, i)))
  }

  function DistanceByte(svt: Svt.ChunkSVT, i: nat): Byte
    requires Svt.Valid(svt) && i < 64
  {
    assert svt.brickDistances[i] in svt.brickDistances;
    svt.brickDistances[i]
  }

  /** Bit i of the two mask words of a slot. */
  function MaskBit(s: Slot, i: nat): bool
    requires i < 64 && |s.low| == |s.high| == 32
  {
    if i < 32 then s.low[i] else s.high[i - 32]
  }

  /** A slot is empty exactly when the chunk is air throughout. */
  lemma EmptyIsAir(svt: Svt.ChunkSVT, blocks: seq<BlockType>)
    requires |blocks| == CHUNK_VOLUME && Svt.Encodes(svt, Svt.Bytes(blocks)) && Svt.Valid(svt)
    ensures SlotFor(SummaryOf(svt)).empty <==> forall k :: 0 <= k < CHUNK_VOLUME ==> blocks[k] == Air
  {
    var bytes := Svt.Bytes(blocks);
    if forall k :: 0 <= k < CHUNK_VOLUME ==> blocks[k] == Air {
      forall i | 0 <= i < 64
        ensures !svt.brickMask[i]
      {
        Svt.AirHasNoBrick(bytes, i);
      }
    }
    if SlotFor(SummaryOf(svt)).empty {
      forall k | 0 <= k < CHUNK_VOLUME
        ensures blocks[k] == Air
      {
        assert forall i :: 0 <= i < 64 ==> svt.brickMask[i] in svt.brickMask;
        Svt.NoBrickIsAir(bytes, k % CHUNK_SIZE, k / CHUNK_SIZE % CHUNK_SIZE, k / (CHUNK_SIZE * CHUNK_SIZE));
        VoxelOf(k);
        ByteRoundTrip(blocks[k]);
      }
    }
  }

  lemma VoxelOf(k: nat)
    requires k < CHUNK_VOLUME
    ensures 0 <= k / (CHUNK_SIZE * CHUNK_SIZE) < CHUNK_SIZE
    ensures Svt.VoxelIndex(k % CHUNK_SIZE, k / CHUNK_SIZE % CHUNK_SIZE, k / (CHUNK_SIZE * CHUNK_SIZE)) == k
  {
    assert k / 32 / 32 == k / 1024;
  }

  /** The mask says which bricks hold anything but air; the distances never exceed the way to the nearest of those. */
  lemma SlotTellsBricks(svt: Svt.ChunkSVT, blocks: seq<BlockType>, b: BrickDistances.Brick)
    requires |blocks| == CHUNK_VOLUME && Svt.Encodes(svt, Svt.Bytes(blocks)) && Svt.Valid(svt) && BrickDistances.InChunk(b)
    ensures var slot, i := SlotFor(SummaryOf(svt)), BrickDistances.Index(b);
            && 0 <= i < 64 && |slot.low| == |slot.high| == 32
            && (MaskBit(slot, i) <==> Svt.HasSolid(Svt.Bytes(blocks), i))
            && BrickDistances.Reached(svt.brickMask, BrickDistances.N, b, Unpack(slot.dist, i))
  {
    var i := BrickDistances.Index(b);
    PackRoundTrip(SummaryOf(svt).brickDistances, i);
  }

  /**
   From the blocks to the GPU: when nothing is left to upload or refresh, the slot of a loaded chunk is empty
   exactly when the chunk is air, and otherwise its mask and distances on the GPU are those of its blocks.
   */
  lemma QuietShowsBlocks(app: App, i: nat, svt: Svt.ChunkSVT, blocks: seq<BlockType>, b: BrickDistances.Brick)
    requires Good(app) && i < TOTAL_CHUNKS && !app.meta.dirty && forall p :: p in app.dirty ==> p !in app.world
    requires |blocks| == CHUNK_VOLUME && Svt.Encodes(svt, Svt.Bytes(blocks)) && Svt.Valid(svt) && BrickDistances.InChunk(b)
    requires PosOf(app.origin, i) in app.world && app.world[PosOf(app.origin, i)] == SummaryOf(svt)
    ensures app.gpu.bits[i] <==> forall k :: 0 <= k < CHUNK_VOLUME ==> blocks[k] == Air
    ensures var slot, j := At(app.gpu, i), BrickDistances.Index(b);
            !app.gpu.bits[i] ==>
              && 0 <= j < 64 && |slot.low| == |slot.high| == 32
              && (MaskBit(slot, j) <==> Svt.HasSolid(Svt.Bytes(blocks), j))
              && BrickDistances.Reached(svt.brickMask, BrickDistances.N, b, Unpack(slot.dist, j))
  {
    QuietIsRight(app, i);
    EmptyIsAir(svt, blocks);
    SlotTellsBricks(svt, blocks, b);
  }
}
