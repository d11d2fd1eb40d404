/**
 The sparse voxel tree of a chunk: a 64-bit mask of non-empty bricks, the voxels of those bricks in
 mask order, and the brick distances. The mask is modelled as its 64 bits, least significant
 first, so `count_ones` of the bits below i is `Rank(mask, i)`.
 */
module Svt {
  import opened Geometry
  import opened BlockTypes
  import BrickDistances

  const BRICK_SIZE: int := 8
  const VOXELS_PER_BRICK: int := 512
  const BRICKS: int := BrickDistances.BRICKS

  datatype ChunkSVT = ChunkSVT(brickMask: seq<bool>, brickData: seq<seq<Byte>>, brickDistances: seq<int>)

  /** Flat index of a voxel in a chunk, and of a voxel in a brick. */
  function VoxelIndex(x: int, y: int, z: int): int {
    x + y * CHUNK_SIZE + z * CHUNK_SIZE * CHUNK_SIZE
  }

  function LocalIndex(x: int, y: int, z: int): int {
    x + y * BRICK_SIZE + z * BRICK_SIZE * BRICK_SIZE
  }

  function Bytes(blocks: seq<BlockType>): (bytes: seq<Byte>)
    ensures |bytes| == |blocks|
  {
    seq(|blocks|, i requires 0 <= i < |blocks| => ToByte(blocks[i]))
  }

  // ----- what a tree of a flat chunk is

  /** Voxel v of brick i, read from the flat chunk. */
  function BrickVoxel(bytes: seq<Byte>, i: int, v: int): Byte
    requires |bytes| == CHUNK_VOLUME && 0 <= i < BRICKS && 0 <= v < VOXELS_PER_BRICK
  {
    var b := BrickDistances.At(i);
    bytes[VoxelIndex(b.x * BRICK_SIZE + v % BRICK_SIZE,
                     b.y * BRICK_SIZE + v / BRICK_SIZE % BRICK_SIZE,
                     b.z * BRICK_SIZE + v / (BRICK_SIZE * BRICK_SIZE))]
  }

  function BrickVoxels(bytes: seq<Byte>, i: int): seq<Byte>
    requires |bytes| == CHUNK_VOLUME && 0 <= i < BRICKS
  {
    seq(VOXELS_PER_BRICK, v requires 0 <= v < VOXELS_PER_BRICK => BrickVoxel(bytes, i, v))
  }

  predicate HasSolid(bytes: seq<Byte>, i: int)
    requires |bytes| == CHUNK_VOLUME && 0 <= i < BRICKS
  {
    exists v :: 0 <= v < VOXELS_PER_BRICK && BrickVoxel(bytes, i, v) != 0
  }

  /** The number of set bits below i. */
  function Rank(mask: seq<bool>, i: int): (r: nat)
    requires 0 <= i <= |mask|
    ensures r <= i
  {
    if i == 0 then 0 else Rank(mask, i - 1) + (if mask[i - 1] then 1 else 0)
  }

  /** The bricks below k are in place. */
  ghost predicate EncodesUpTo(mask: seq<bool>, data: seq<seq<Byte>>, bytes: seq<Byte>, k: int)
    requires |bytes| == CHUNK_VOLUME && 0 <= k <= BRICKS
  {
    && |mask| == BRICKS
    && (forall i :: 0 <= i < k ==> (mask[i] <==> HasSolid(bytes, i)))
    && (forall i :: k <= i < BRICKS ==> !mask[i])
    && |data| == Rank(mask, k)
    && (forall i :: 0 <= i < k && mask[i] ==> Rank(mask, i) < |data| && data[Rank(mask, i)] == BrickVoxels(bytes, i))
  }

  ghost predicate Encodes(svt: ChunkSVT, bytes: seq<Byte>)
    requires |bytes| == CHUNK_VOLUME
  {
    && EncodesUpTo(svt.brickMask, svt.brickData, bytes, BRICKS)
    && BrickDistances.AfterSweeps(svt.brickMask, BrickDistances.N, svt.brickDistances)
  }

  // ----- reading the tree

  /** The invariant of every tree the constructors build; without it the source indexes out of bounds. */
  predicate Valid(svt: ChunkSVT) {
    && |svt.brickMask| == BRICKS
    && |svt.brickData| == Rank(svt.brickMask, BRICKS)
    && (forall d :: d in svt.brickData ==> |d| == VOXELS_PER_BRICK)
    && |svt.brickDistances| == BRICKS
    && (forall d :: d in svt.brickDistances ==> 0 <= d < 256)
  }

  predicate IsBrickSolid(svt: ChunkSVT, b: BrickDistances.Brick)
    requires Valid(svt) && BrickDistances.InChunk(b)
  {
    svt.brickMask[BrickDistances.Index(b)]
  }

  function GetBrickDataIndex(svt: ChunkSVT, b: BrickDistances.Brick): (r: Option<int>)
    requires Valid(svt) && BrickDistances.InChunk(b)
  {
    if !IsBrickSolid(svt, b) then None else Some(Rank(svt.brickMask, BrickDistances.Index(b)))
  }

  /** Voxel v of brick b. */
  function BlockAt(svt: ChunkSVT, b: BrickDistances.Brick, v: int): BlockType
    requires Valid(svt) && BrickDistances.InChunk(b) && 0 <= v < VOXELS_PER_BRICK
  {
    match GetBrickDataIndex(svt, b)
    case None => Air
    case Some(d) =>
      RankBelowTotal(svt.brickMask, BrickDistances.Index(b), BRICKS);
      FromByte(svt.brickData[d][v])
  }

  function GetBlock(svt: ChunkSVT, x: int, y: int, z: int): BlockType
    requires Valid(svt) && 0 <= x < CHUNK_SIZE && 0 <= y < CHUNK_SIZE && 0 <= z < CHUNK_SIZE
  {
    BlockAt(svt, BrickDistances.Brick(x / BRICK_SIZE, y / BRICK_SIZE, z / BRICK_SIZE),
            LocalIndex(x % BRICK_SIZE, y % BRICK_SIZE, z % BRICK_SIZE))
  }

  // ----- rank

  lemma {:induction false} RankBelowTotal(mask: seq<bool>, i: int, n: int)
    requires 0 <= i < n <= |mask| && mask[i]
    ensures Rank(mask, i) < Rank(mask, n)
    decreases n
  {
    if i < n - 1 { RankBelowTotal(mask, i, n - 1); }
  }

  /** Rank looks only at the bits below. */
  lemma {:induction false} RankPrefix(a: seq<bool>, b: seq<bool>, n: int)
    requires 0 <= n <= |a| && n <= |b| && forall i :: 0 <= i < n ==> a[i] == b[i]
    ensures Rank(a, n) == Rank(b, n)
  {
    if n > 0 { RankPrefix(a, b, n - 1); }
  }

  /** Set bits have ranks 0, 1, 2, ...: every data slot belongs to exactly one set bit. */
  lemma {:induction false} RankIsOnto(mask: seq<bool>, n: int, r: int) returns (i: int)
    requires 0 <= n <= |mask| && 0 <= r < Rank(mask, n)
    ensures 0 <= i < n && mask[i] && Rank(mask, i) == r
  {
    if mask[n - 1] && r == Rank(mask, n - 1) {
      i := n - 1;
    } else {
      i := RankIsOnto(mask, n - 1, r);
    }
  }

  // ----- the tree refines the flat chunk

  lemma EncodesIsValid(svt: ChunkSVT, bytes: seq<Byte>)
    requires |bytes| == CHUNK_VOLUME && Encodes(svt, bytes)
    ensures Valid(svt)
  {
    forall d | d in svt.brickData
      ensures |d| == VOXELS_PER_BRICK
    {
      var r :| 0 <= r < |svt.brickData| && svt.brickData[r] == d;
      var i := RankIsOnto(svt.brickMask, BRICKS, r);
    }
    forall d | d in svt.brickDistances
      ensures 0 <= d < 256
    {
      var i :| 0 <= i < BRICKS && svt.brickDistances[i] == d;
      assert BrickDistances.InChunk(BrickDistances.At(i));
    }
  }

  /** A voxel's place in its brick leads back to the voxel. */
  lemma BrickOfVoxel(bytes: seq<Byte>, x: int, y: int, z: int)
    requires |bytes| == CHUNK_VOLUME && 0 <= x < CHUNK_SIZE && 0 <= y < CHUNK_SIZE && 0 <= z < CHUNK_SIZE
    ensures var b := BrickDistances.Brick(x / BRICK_SIZE, y / BRICK_SIZE, z / BRICK_SIZE);
            var v := LocalIndex(x % BRICK_SIZE, y % BRICK_SIZE, z % BRICK_SIZE);
            && BrickDistances.InChunk(b) && 0 <= v < VOXELS_PER_BRICK
            && BrickVoxel(bytes, BrickDistances.Index(b), v) == bytes[VoxelIndex(x, y, z)]
  {
    var b := BrickDistances.Brick(x / BRICK_SIZE, y / BRICK_SIZE, z / BRICK_SIZE);
    var v := LocalIndex(x % BRICK_SIZE, y % BRICK_SIZE, z % BRICK_SIZE);
    BrickDistances.IndexInjective(b, BrickDistances.At(BrickDistances.Index(b)));
    assert v % BRICK_SIZE == x % BRICK_SIZE;
    assert v / BRICK_SIZE % BRICK_SIZE == y % BRICK_SIZE;
    assert v / (BRICK_SIZE * BRICK_SIZE) == z % BRICK_SIZE;
  }

  /** Reading the tree gives the flat chunk's byte, decoded, at every coordinate. */
  lemma TreeReadsBytes(svt: ChunkSVT, bytes: seq<Byte>, x: int, y: int, z: int)
    requires |bytes| == CHUNK_VOLUME && Encodes(svt, bytes)
    requires 0 <= x < CHUNK_SIZE && 0 <= y < CHUNK_SIZE && 0 <= z < CHUNK_SIZE
    ensures Valid(svt) && GetBlock(svt, x, y, z) == FromByte(bytes[VoxelIndex(x, y, z)])
  {
    EncodesIsValid(svt, bytes);
    BrickOfVoxel(bytes, x, y, z);
  }

  /** The tree of a chunk returns the chunk's own block at every coordinate. */
  lemma TreeRefinesChunk(svt: ChunkSVT, blocks: seq<BlockType>, x: int, y: int, z: int)
    requires |blocks| == CHUNK_VOLUME && Encodes(svt, Bytes(blocks))
    requires 0 <= x < CHUNK_SIZE && 0 <= y < CHUNK_SIZE && 0 <= z < CHUNK_SIZE
    ensures Valid(svt) && GetBlock(svt, x, y, z) == blocks[VoxelIndex(x, y, z)]
  {
    TreeReadsBytes(svt, Bytes(blocks), x, y, z);
    ByteRoundTrip(blocks[VoxelIndex(x, y, z)]);
  }

  /** A flat chunk has one tree: so both constructors build the same tree for the same chunk. */
  lemma TreeIsUnique(a: ChunkSVT, b: ChunkSVT, bytes: seq<Byte>)
    requires |bytes| == CHUNK_VOLUME && Encodes(a, bytes) && Encodes(b, bytes)
    ensures a == b
  {
    assert a.brickMask == b.brickMask;
    forall r | 0 <= r < |a.brickData|
      ensures a.brickData[r] == b.brickData[r]
    {
      var i := RankIsOnto(a.brickMask, BRICKS, r);
    }
    forall i | 0 <= i < BRICKS
      ensures a.brickDistances[i] == b.brickDistances[i]
    {
      BrickDistances.ReachedIsUnique(a.brickMask, BrickDistances.N, BrickDistances.At(i),
                                     a.brickDistances[i], b.brickDistances[i]);
    }
  }

  /** A voxel of a chunk whose tree stores no brick is air: an empty mask means an empty chunk. */
  lemma NoBrickIsAir(bytes: seq<Byte>, x: int, y: int, z: int)
    requires |bytes| == CHUNK_VOLUME && (forall i :: 0 <= i < BRICKS ==> !HasSolid(bytes, i))
    requires 0 <= x < CHUNK_SIZE && 0 <= y < CHUNK_SIZE && 0 <= z < CHUNK_SIZE
    ensures bytes[VoxelIndex(x, y, z)] == 0
  {
    var i := BrickDistances.Index(BrickDistances.Brick(x / BRICK_SIZE, y / BRICK_SIZE, z / BRICK_SIZE));
    BrickOfVoxel(bytes, x, y, z);
    assert !HasSolid(bytes, i);
  }

  lemma AirHasNoBrick(bytes: seq<Byte>, i: int)
    requires |bytes| == CHUNK_VOLUME && (forall k :: 0 <= k < CHUNK_VOLUME ==> bytes[k] == 0)
    requires 0 <= i < BRICKS
    ensures !HasSolid(bytes, i)
  {}

  // ----- construction

  function Empty(): ChunkSVT {
    ChunkSVT(seq(BRICKS, _ => false), [], seq(BRICKS, _ => BrickDistances.FAR))
  }

  lemma {:induction false} RankOfNone(mask: seq<bool>, n: int)
    requires 0 <= n <= |mask| && forall i :: 0 <= i < n ==> !mask[i]
    ensures Rank(mask, n) == 0
  {
    if n > 0 { RankOfNone(mask, n - 1); }
  }

  /** The early return for an all-air chunk is the tree the loops would build. */
  lemma EmptyEncodesAir(bytes: seq<Byte>)
    requires |bytes| == CHUNK_VOLUME && forall k :: 0 <= k < CHUNK_VOLUME ==> bytes[k] == 0
    ensures Encodes(Empty(), bytes)
  {
    forall i | 0 <= i < BRICKS
      ensures !HasSolid(bytes, i)
    {
      AirHasNoBrick(bytes, i);
    }
    RankOfNone(Empty().brickMask, BRICKS);
    BrickDistances.NoSolidIsFar(Empty().brickMask, BrickDistances.N, Empty().brickDistances);
  }

  ghost predicate CopiedUpTo(brick: seq<Byte>, bytes: seq<Byte>, i: int, n: int)
    requires |bytes| == CHUNK_VOLUME && 0 <= i < BRICKS && |brick| == VOXELS_PER_BRICK && 0 <= n <= VOXELS_PER_BRICK
  {
    forall v :: 0 <= v < n ==> brick[v] == BrickVoxel(bytes, i, v)
  }

  ghost predicate SolidBelow(bytes: seq<Byte>, i: int, n: int)
    requires |bytes| == CHUNK_VOLUME && 0 <= i < BRICKS && 0 <= n <= VOXELS_PER_BRICK
  {
    exists v :: 0 <= v < n && BrickVoxel(bytes, i, v) != 0
  }

  /** The inner three loops: copy one brick out of the flat chunk. */
  method ExtractBrick(bytes: seq<Byte>, b: BrickDistances.Brick) returns (voxels: seq<Byte>, hasSolid: bool)
    requires |bytes| == CHUNK_VOLUME && BrickDistances.InChunk(b)
    ensures voxels == BrickVoxels(bytes, BrickDistances.Index(b))
    ensures hasSolid <==> HasSolid(bytes, BrickDistances.Index(b))
  {
    ghost var i := BrickDistances.Index(b);
    var brick := new Byte[VOXELS_PER_BRICK](_ => 0);
    hasSolid := false;
    for vz := 0 to BRICK_SIZE
      invariant CopiedUpTo(brick[..], bytes, i, LocalIndex(0, 0, vz))
      invariant hasSolid <==> SolidBelow(bytes, i, LocalIndex(0, 0, vz))
    {
      for vy := 0 to BRICK_SIZE
        invariant CopiedUpTo(brick[..], bytes, i, LocalIndex(0, vy, vz))
        invariant hasSolid <==> SolidBelow(bytes, i, LocalIndex(0, vy, vz))
      {
        for vx := 0 to BRICK_SIZE
          invariant CopiedUpTo(brick[..], bytes, i, LocalIndex(vx, vy, vz))
          invariant hasSolid <==> SolidBelow(bytes, i, LocalIndex(vx, vy, vz))
        {
          LocalParts(vx, vy, vz);
          BrickDistances.IndexInjective(b, BrickDistances.At(i));
          var voxel := LocalIndex(vx, vy, vz);
          var value := bytes[VoxelIndex(b.x * BRICK_SIZE + vx, b.y * BRICK_SIZE + vy, b.z * BRICK_SIZE + vz)];
          CopyNext(brick[..], bytes, i, voxel, value);
          brick[voxel] := value;
          if value != 0 {
            hasSolid := true;
          }
        }
      }
    }
    voxels := brick[..];
  }

  lemma CopyNext(brick: seq<Byte>, bytes: seq<Byte>, i: int, n: int, value: Byte)
    requires |bytes| == CHUNK_VOLUME && 0 <= i < BRICKS && |brick| == VOXELS_PER_BRICK && 0 <= n < VOXELS_PER_BRICK
    requires CopiedUpTo(brick, bytes, i, n) && value == BrickVoxel(bytes, i, n)
    ensures CopiedUpTo(brick[n := value], bytes, i, n + 1)
    ensures SolidBelow(bytes, i, n + 1) <==> SolidBelow(bytes, i, n) || value != 0
  {}

  lemma LocalParts(x: int, y: int, z: int)
    requires 0 <= x < BRICK_SIZE && 0 <= y < BRICK_SIZE && 0 <= z < BRICK_SIZE
    ensures var v := LocalIndex(x, y, z);
            && 0 <= v < VOXELS_PER_BRICK
            && v % BRICK_SIZE == x && v / BRICK_SIZE % BRICK_SIZE == y && v / (BRICK_SIZE * BRICK_SIZE) == z
  {}

  /** Appending a non-empty brick, or skipping an empty one, keeps data and mask in step. */
  lemma EncodesNext(mask: seq<bool>, data: seq<seq<Byte>>, bytes: seq<Byte>, k: int)
    requires |bytes| == CHUNK_VOLUME && 0 <= k < BRICKS && EncodesUpTo(mask, data, bytes, k)
    ensures HasSolid(bytes, k) ==> EncodesUpTo(mask[k := true], data + [BrickVoxels(bytes, k)], bytes, k + 1)
    ensures !HasSolid(bytes, k) ==> EncodesUpTo(mask, data, bytes, k + 1)
  {
    if HasSolid(bytes, k) {
      var mask', data' := mask[k := true], data + [BrickVoxels(bytes, k)];
      RankPrefix(mask, mask', k);
      forall i | 0 <= i < k && mask'[i]
        ensures Rank(mask', i) < |data| && data'[Rank(mask', i)] == BrickVoxels(bytes, i)
      {
        RankPrefix(mask, mask', i);
      }
    }
  }

  /** The outer loops shared by both constructors, then the distances. */
  method BuildTree(bytes: seq<Byte>) returns (svt: ChunkSVT)
    requires |bytes| == CHUNK_VOLUME
    ensures Encodes(svt, bytes)
  {
    var mask: seq<bool> := seq(BRICKS, _ => false);
    var data: seq<seq<Byte>> := [];
    for bz := 0 to BrickDistances.N
      invariant EncodesUpTo(mask, data, bytes, BrickDistances.Index(BrickDistances.Brick(0, 0, bz)))
    {
      for b_y := 0 to BrickDistances.N
        invariant EncodesUpTo(mask, data, bytes, BrickDistances.Index(BrickDistances.Brick(0, b_y, bz)))
      {
        for bx := 0 to BrickDistances.N
          invariant EncodesUpTo(mask, data, bytes, BrickDistances.Index(BrickDistances.Brick(bx, b_y, bz)))
        {
          var b := BrickDistances.Brick(bx, b_y, bz);
          var i := BrickDistances.Index(b);
          var voxels, hasSolid := ExtractBrick(bytes, b);
          EncodesNext(mask, data, bytes, i);
          if hasSolid {
            mask := mask[i := true];
            data := data + [voxels];
          }
        }
      }
    }
    var distances, _ := BrickDistances.CalculateBrickDistances(mask);
    svt := ChunkSVT(mask, data, distances);
  }

  /** From raw bytes; a slice of the wrong length gives the empty tree. */
  method FromBytes(bytes: seq<Byte>) returns (svt: ChunkSVT)
    ensures |bytes| != CHUNK_VOLUME ==> svt == Empty()
    ensures |bytes| == CHUNK_VOLUME ==> Encodes(svt, bytes)
  {
    if |bytes| != CHUNK_VOLUME {
      return Empty();
    }
    if forall k :: 0 <= k < |bytes| ==> bytes[k] == 0 {
      EmptyEncodesAir(bytes);
      return Empty();
    }
    svt := BuildTree(bytes);
  }

  /** From the chunk's block array. */
  method FromBlockData(blocks: seq<BlockType>) returns (svt: ChunkSVT)
    requires |blocks| == CHUNK_VOLUME
    ensures Encodes(svt, Bytes(blocks))
  {
    if forall k :: 0 <= k < |blocks| ==> blocks[k] == Air {
      EmptyEncodesAir(Bytes(blocks));
      return Empty();
    }
    svt := BuildTree(Bytes(blocks));
  }
}
