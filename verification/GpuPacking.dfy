/**
 The packed GPU form of a set of trees: a 76-byte header per slot (mask, distances, data offset,
 little-endian) and one buffer of brick voxels. `ReadVoxel` is the decoder the layout promises;
 packing followed by it gives back the block of the unpacked tree.
 */
module GpuPacking {
  import opened Geometry
  import opened BlockTypes
  import opened Svt
  import BrickDistances

  const HEADER_SIZE: int := 76
  const U32: int := 0x1_0000_0000

  // ----- little-endian bytes

  function Pow(base: nat, n: nat): nat {
    if n == 0 then 1 else base * Pow(base, n - 1)
  }

  /** Bits of one byte of `mask.to_le_bytes()`, least significant first. */
  function {:induction false} PackBits(bits: seq<bool>): (r: nat)
    ensures r < Pow(2, |bits|)
  {
    if bits == [] then 0 else (if bits[0] then 1 else 0) + 2 * PackBits(bits[1..])
  }

  /** `(b >> j) & 1`. */
  predicate TestBit(b: nat, j: nat) {
    if j == 0 then b % 2 == 1 else TestBit(b / 2, j - 1)
  }

  function PackByte(bits: seq<bool>): Byte
    requires |bits| == 8
  {
    assert Pow(2, 8) == 256;
    PackBits(bits)
  }

  function MaskBytes(mask: seq<bool>): (r: seq<Byte>)
    requires |mask| == BRICKS
    ensures |r| == 8
  {
    seq(8, k requires 0 <= k < 8 => PackByte(mask[8 * k..8 * k + 8]))
  }

  function ReadMask(bytes: seq<Byte>): (r: seq<bool>)
    requires |bytes| == 8
    ensures |r| == BRICKS
  {
    seq(BRICKS, i requires 0 <= i < BRICKS => TestBit(bytes[i / 8], i % 8))
  }

  /** The n low bytes of v, least significant first. */
  function LeBytes(v: nat, n: nat): (r: seq<Byte>)
    ensures |r| == n
  {
    if n == 0 then [] else [v % 256] + LeBytes(v / 256, n - 1)
  }

  function ReadLe(bytes: seq<Byte>): nat {
    if bytes == [] then 0 else bytes[0] as int + 256 * ReadLe(bytes[1..])
  }

  /** `(offset as u32).to_le_bytes()`: the cast keeps the low 32 bits. */
  function OffsetBytes(offset: nat): (r: seq<Byte>)
    ensures |r| == 4
  {
    LeBytes(offset % U32, 4)
  }

  lemma {:induction false} BitsRoundTrip(bits: seq<bool>, j: nat)
    requires j < |bits|
    ensures TestBit(PackBits(bits), j) == bits[j]
  {
    if j > 0 {
      assert PackBits(bits) / 2 == PackBits(bits[1..]);
      BitsRoundTrip(bits[1..], j - 1);
    }
  }

  lemma MaskRoundTrip(mask: seq<bool>)
    requires |mask| == BRICKS
    ensures ReadMask(MaskBytes(mask)) == mask
  {
    forall i | 0 <= i < BRICKS
      ensures ReadMask(MaskBytes(mask))[i] == mask[i]
    {
      BitsRoundTrip(mask[8 * (i / 8)..8 * (i / 8) + 8], i % 8);
    }
  }

  lemma {:induction false} LeRoundTrip(v: nat, n: nat)
    requires v < Pow(256, n)
    ensures ReadLe(LeBytes(v, n)) == v
  {
    if n > 0 {
      LeRoundTrip(v / 256, n - 1);
      assert LeBytes(v, n)[1..] == LeBytes(v / 256, n - 1);
    }
  }

  /** The stored offset is the true one exactly while the data stays under 2^32 bytes. */
  lemma OffsetRoundTrip(offset: nat)
    ensures ReadLe(OffsetBytes(offset)) == offset <==> offset < U32
  {
    assert Pow(256, 4) == U32;
    LeRoundTrip(offset % U32, 4);
  }

  // ----- the layout

  function Flatten(bricks: seq<seq<Byte>>): seq<Byte> {
    if bricks == [] then [] else Flatten(bricks[..|bricks| - 1]) + bricks[|bricks| - 1]
  }

  /** The brick data of a list of slots, absent chunks contributing none. */
  function DataOf(chunks: map<Pos, ChunkSVT>, positions: seq<Pos>): seq<Byte> {
    if positions == [] then [] else
      var last := positions[|positions| - 1];
      DataOf(chunks, positions[..|positions| - 1]) + (if last in chunks then Flatten(chunks[last].brickData) else [])
  }

  function HeaderOf(chunks: map<Pos, ChunkSVT>, pos: Pos, offset: nat): (h: seq<Byte>)
    requires pos in chunks ==> Valid(chunks[pos])
    ensures |h| == HEADER_SIZE
  {
    if pos in chunks then
      MaskBytes(chunks[pos].brickMask) + Distances(chunks[pos]) + OffsetBytes(offset)
    else
      seq(8, _ => 0) + seq(64, _ => 255) + seq(4, _ => 0)
  }

  function Distances(svt: ChunkSVT): (d: seq<Byte>)
    requires Valid(svt)
    ensures d == svt.brickDistances
  {
    assert forall i :: 0 <= i < BRICKS ==> svt.brickDistances[i] in svt.brickDistances;
    seq(BRICKS, i requires 0 <= i < BRICKS => var d: Byte := svt.brickDistances[i]; d)
  }

  /** The header of slot k. */
  function Slot(headers: seq<Byte>, k: int): (h: seq<Byte>)
    requires 0 <= k && HEADER_SIZE * k + HEADER_SIZE <= |headers|
    ensures |h| == HEADER_SIZE
  {
    headers[HEADER_SIZE * k..HEADER_SIZE * k + HEADER_SIZE]
  }

  ghost predicate AllValid(chunks: map<Pos, ChunkSVT>) {
    forall pos :: pos in chunks ==> Valid(chunks[pos])
  }

  /** The first n slots of the two buffers. */
  ghost predicate PackedUpTo(chunks: map<Pos, ChunkSVT>, positions: seq<Pos>, headers: seq<Byte>, data: seq<Byte>, n: int)
    requires AllValid(chunks) && 0 <= n <= |positions|
  {
    && |headers| == HEADER_SIZE * |positions|
    && data == DataOf(chunks, positions[..n])
    && forall k :: 0 <= k < n ==>
         Slot(headers, k) == HeaderOf(chunks, positions[k], |DataOf(chunks, positions[..k])|)
  }

  // ----- the decoder

  /** Voxel v of brick i through mask, offset and rank; None where the address is past the data. */
  function Fetch(mask: seq<bool>, offset: nat, data: seq<Byte>, i: int, v: int): Option<BlockType>
    requires 0 <= i < |mask| && 0 <= v < VOXELS_PER_BRICK
  {
    if !mask[i] then Some(Air) else
      var at := offset + Rank(mask, i) * VOXELS_PER_BRICK + v;
      if at < |data| then Some(FromByte(data[at])) else None
  }

  function ReadVoxel(header: seq<Byte>, data: seq<Byte>, x: int, y: int, z: int): Option<BlockType>
    requires |header| == HEADER_SIZE && 0 <= x < CHUNK_SIZE && 0 <= y < CHUNK_SIZE && 0 <= z < CHUNK_SIZE
  {
    Fetch(ReadMask(header[..8]), ReadLe(header[72..76]), data,
          BrickDistances.Index(BrickDistances.Brick(x / BRICK_SIZE, y / BRICK_SIZE, z / BRICK_SIZE)),
          LocalIndex(x % BRICK_SIZE, y % BRICK_SIZE, z % BRICK_SIZE))
  }

  lemma {:induction false} FlattenAt(bricks: seq<seq<Byte>>, r: int, v: int)
    requires forall d :: d in bricks ==> |d| == VOXELS_PER_BRICK
    requires 0 <= r < |bricks| && 0 <= v < VOXELS_PER_BRICK
    ensures |Flatten(bricks)| == |bricks| * VOXELS_PER_BRICK
    ensures Flatten(bricks)[r * VOXELS_PER_BRICK + v] == bricks[r][v]
  {
    var n := |bricks| - 1;
    FlattenLength(bricks);
    FlattenLength(bricks[..n]);
    if r < n {
      FlattenAt(bricks[..n], r, v);
    }
  }

  lemma {:induction false} FlattenLength(bricks: seq<seq<Byte>>)
    requires forall d :: d in bricks ==> |d| == VOXELS_PER_BRICK
    ensures |Flatten(bricks)| == |bricks| * VOXELS_PER_BRICK
  {
    if bricks != [] {
      FlattenLength(bricks[..|bricks| - 1]);
      assert bricks[|bricks| - 1] in bricks;
    }
  }

  lemma {:induction false} DataPrefix(chunks: map<Pos, ChunkSVT>, positions: seq<Pos>, k: int)
    requires 0 <= k <= |positions|
    ensures DataOf(chunks, positions[..k]) <= DataOf(chunks, positions)
  {
    if k < |positions| {
      DataPrefix(chunks, positions[..|positions| - 1], k);
      assert positions[..|positions| - 1][..k] == positions[..k];
    } else {
      assert positions[..k] == positions;
    }
  }

  predicate BrickAt(svt: ChunkSVT, data: seq<Byte>, offset: nat, r: int, v: int)
    requires 0 <= r < |svt.brickData| && 0 <= v < VOXELS_PER_BRICK
  {
    && |svt.brickData[r]| == VOXELS_PER_BRICK
    && offset + r * VOXELS_PER_BRICK + v < |data|
    && data[offset + r * VOXELS_PER_BRICK + v] == svt.brickData[r][v]
  }

  /** The bricks of a tree lie in the data from `offset` on, in rank order. */
  ghost predicate BricksAt(svt: ChunkSVT, data: seq<Byte>, offset: nat) {
    forall r, v :: 0 <= r < |svt.brickData| && 0 <= v < VOXELS_PER_BRICK ==> BrickAt(svt, data, offset, r, v)
  }

  /** A slot's bricks start at its offset. */
  lemma SlotBricks(chunks: map<Pos, ChunkSVT>, positions: seq<Pos>, k: int)
    requires AllValid(chunks) && 0 <= k < |positions| && positions[k] in chunks
    ensures BricksAt(chunks[positions[k]], DataOf(chunks, positions), |DataOf(chunks, positions[..k])|)
  {
    var svt, offset := chunks[positions[k]], |DataOf(chunks, positions[..k])|;
    var slot := positions[..k + 1];
    assert slot[..k] == positions[..k];
    assert DataOf(chunks, slot) == DataOf(chunks, positions[..k]) + Flatten(svt.brickData);
    DataPrefix(chunks, positions, k + 1);
    forall r, v | 0 <= r < |svt.brickData| && 0 <= v < VOXELS_PER_BRICK
      ensures BrickAt(svt, DataOf(chunks, positions), offset, r, v)
    {
      FlattenAt(svt.brickData, r, v);
      assert svt.brickData[r] in svt.brickData;
    }
  }

  lemma HeaderParts(svt: ChunkSVT, header: seq<Byte>, offset: nat)
    requires Valid(svt) && offset < U32
    requires header == MaskBytes(svt.brickMask) + Distances(svt) + OffsetBytes(offset)
    ensures ReadMask(header[..8]) == svt.brickMask && ReadLe(header[72..76]) == offset
  {
    assert header[..8] == MaskBytes(svt.brickMask);
    assert header[72..76] == OffsetBytes(offset);
    MaskRoundTrip(svt.brickMask);
    OffsetRoundTrip(offset);
  }

  lemma FetchIsBlock(svt: ChunkSVT, data: seq<Byte>, offset: nat, b: BrickDistances.Brick, v: int)
    requires Valid(svt) && BricksAt(svt, data, offset)
    requires BrickDistances.InChunk(b) && 0 <= v < VOXELS_PER_BRICK
    ensures Fetch(svt.brickMask, offset, data, BrickDistances.Index(b), v) == Some(BlockAt(svt, b, v))
  {
    var i := BrickDistances.Index(b);
    if svt.brickMask[i] {
      RankBelowTotal(svt.brickMask, i, BRICKS);
      assert BrickAt(svt, data, offset, Rank(svt.brickMask, i), v);
    }
  }

  /** A present slot, given where its bricks are in the data. */
  lemma HeaderDecodes(svt: ChunkSVT, header: seq<Byte>, data: seq<Byte>, offset: nat, x: int, y: int, z: int)
    requires Valid(svt) && offset < U32
    requires header == MaskBytes(svt.brickMask) + Distances(svt) + OffsetBytes(offset)
    requires 0 <= x < CHUNK_SIZE && 0 <= y < CHUNK_SIZE && 0 <= z < CHUNK_SIZE
    requires BricksAt(svt, data, offset)
    ensures ReadVoxel(header, data, x, y, z) == Some(GetBlock(svt, x, y, z))
  {
    HeaderParts(svt, header, offset);
    FetchIsBlock(svt, data, offset, BrickDistances.Brick(x / BRICK_SIZE, y / BRICK_SIZE, z / BRICK_SIZE),
                 LocalIndex(x % BRICK_SIZE, y % BRICK_SIZE, z % BRICK_SIZE));
  }

  /** An absent slot has no set bit. */
  lemma AbsentDecodes(header: seq<Byte>, data: seq<Byte>, x: int, y: int, z: int)
    requires header == seq(8, _ => 0) + seq(64, _ => 255) + seq(4, _ => 0)
    requires 0 <= x < CHUNK_SIZE && 0 <= y < CHUNK_SIZE && 0 <= z < CHUNK_SIZE
    ensures ReadVoxel(header, data, x, y, z) == Some(Air)
  {
    var i := BrickDistances.Index(BrickDistances.Brick(x / BRICK_SIZE, y / BRICK_SIZE, z / BRICK_SIZE));
    assert header[..8] == seq(8, _ => 0);
    ZeroHasNoBit(i % 8);
  }

  lemma {:induction false} ZeroHasNoBit(j: nat)
    ensures !TestBit(0, j)
  {
    if j > 0 { ZeroHasNoBit(j - 1); }
  }

  /** Decoding slot k gives the block of the unpacked tree, and Air for an absent chunk, while the slot's offset fits. */
  lemma PackedDecodes(chunks: map<Pos, ChunkSVT>, positions: seq<Pos>, headers: seq<Byte>, data: seq<Byte>,
                      k: int, x: int, y: int, z: int)
    requires AllValid(chunks) && PackedUpTo(chunks, positions, headers, data, |positions|)
    requires 0 <= k < |positions| && |DataOf(chunks, positions[..k])| < U32
    requires 0 <= x < CHUNK_SIZE && 0 <= y < CHUNK_SIZE && 0 <= z < CHUNK_SIZE
    ensures ReadVoxel(Slot(headers, k), data, x, y, z)
            == Some(if positions[k] in chunks then GetBlock(chunks[positions[k]], x, y, z) else Air)
    ensures Slot(headers, k)[8..72]
            == if positions[k] in chunks then Distances(chunks[positions[k]]) else seq(64, _ => 255)
  {
    assert positions[..|positions|] == positions;
    if positions[k] in chunks {
      SlotBricks(chunks, positions, k);
      HeaderDecodes(chunks[positions[k]], Slot(headers, k), data, |DataOf(chunks, positions[..k])|, x, y, z);
    } else {
      AbsentDecodes(Slot(headers, k), data, x, y, z);
    }
  }

  // ----- the packing loop

  method CopyInto(a: array<Byte>, offset: int, src: seq<Byte>)
    requires 0 <= offset && offset + |src| <= a.Length
    modifies a
    ensures forall i :: 0 <= i < a.Length ==> a[i] == if offset <= i < offset + |src| then src[i - offset] else old(a[i])
  {
    for i := 0 to |src|
      invariant forall j :: 0 <= j < a.Length ==> a[j] == if offset <= j < offset + i then src[j - offset] else old(a[j])
    {
      a[offset + i] := src[i];
    }
  }

  /** One slot: its header in place, its bricks appended. */
  method PackSlot(buffer: array<Byte>, chunks: map<Pos, ChunkSVT>, pos: Pos, k: int, data: seq<Byte>)
    returns (data': seq<Byte>)
    requires pos in chunks ==> Valid(chunks[pos])
    requires 0 <= k && HEADER_SIZE * k + HEADER_SIZE <= buffer.Length
    requires Slot(buffer[..], k) == seq(HEADER_SIZE, _ => 0)
    modifies buffer
    ensures Slot(buffer[..], k) == HeaderOf(chunks, pos, |data|)
    ensures buffer[..HEADER_SIZE * k] == old(buffer[..HEADER_SIZE * k])
    ensures buffer[HEADER_SIZE * k + HEADER_SIZE..] == old(buffer[HEADER_SIZE * k + HEADER_SIZE..])
    ensures data' == data + (if pos in chunks then Flatten(chunks[pos].brickData) else [])
  {
    var at := HEADER_SIZE * k;
    data' := data;
    if pos in chunks {
      var svt := chunks[pos];
      CopyInto(buffer, at, MaskBytes(svt.brickMask));
      CopyInto(buffer, at + 8, Distances(svt));
      CopyInto(buffer, at + 72, OffsetBytes(|data|));
      data' := AppendBricks(data, svt.brickData);
    } else {
      ghost var zeros := Slot(buffer[..], k);
      CopyInto(buffer, at + 8, seq(64, _ => 255));
      assert forall i :: at <= i < at + 8 || at + 72 <= i < at + 76 ==> buffer[i] == zeros[i - at];
    }
  }

  method PackForGpu(chunks: map<Pos, ChunkSVT>, positions: seq<Pos>) returns (headers: seq<Byte>, data: seq<Byte>)
    requires AllValid(chunks)
    ensures PackedUpTo(chunks, positions, headers, data, |positions|)
  {
    var buffer := new Byte[HEADER_SIZE * |positions|](_ => 0);
    data := [];
    for k := 0 to |positions|
      invariant PackedUpTo(chunks, positions, buffer[..], data, k)
      invariant buffer[HEADER_SIZE * k..] == seq(buffer.Length - HEADER_SIZE * k, _ => 0)
    {
      ghost var was, before := buffer[..], data;
      ZeroTail(was, k);
      data := PackSlot(buffer, chunks, positions[k], k, data);
      PackedNext(chunks, positions, was, buffer[..], before, data, k);
    }
    headers := buffer[..];
  }

  lemma ZeroTail(s: seq<Byte>, k: int)
    requires 0 <= k && HEADER_SIZE * k + HEADER_SIZE <= |s|
    requires s[HEADER_SIZE * k..] == seq(|s| - HEADER_SIZE * k, _ => 0)
    ensures Slot(s, k) == seq(HEADER_SIZE, _ => 0)
    ensures s[HEADER_SIZE * k + HEADER_SIZE..] == seq(|s| - HEADER_SIZE * k - HEADER_SIZE, _ => 0)
  {}

  method AppendBricks(data: seq<Byte>, bricks: seq<seq<Byte>>) returns (result: seq<Byte>)
    ensures result == data + Flatten(bricks)
  {
    result := data;
    for r := 0 to |bricks|
      invariant result == data + Flatten(bricks[..r])
    {
      result := result + bricks[r];
      assert bricks[..r + 1][..r] == bricks[..r];
    }
    assert bricks[..|bricks|] == bricks;
  }

  lemma PackedNext(chunks: map<Pos, ChunkSVT>, positions: seq<Pos>, was: seq<Byte>, now: seq<Byte>,
                   data: seq<Byte>, data': seq<Byte>, k: int)
    requires AllValid(chunks) && 0 <= k < |positions| && PackedUpTo(chunks, positions, was, data, k)
    requires |now| == |was| && now[..HEADER_SIZE * k] == was[..HEADER_SIZE * k]
    requires Slot(now, k) == HeaderOf(chunks, positions[k], |data|)
    requires data' == data + (if positions[k] in chunks then Flatten(chunks[positions[k]].brickData) else [])
    ensures PackedUpTo(chunks, positions, now, data', k + 1)
  {
    assert positions[..k + 1][..k] == positions[..k];
    forall j | 0 <= j < k
      ensures Slot(now, j) == Slot(was, j)
    {
      SlotFrame(was, now, j, k);
    }
  }

  lemma SlotFrame(was: seq<Byte>, now: seq<Byte>, j: int, k: int)
    requires 0 <= j < k && HEADER_SIZE * k <= |was| == |now| && now[..HEADER_SIZE * k] == was[..HEADER_SIZE * k]
    ensures Slot(now, j) == Slot(was, j)
  {
    assert Slot(now, j) == now[..HEADER_SIZE * k][HEADER_SIZE * j..HEADER_SIZE * j + HEADER_SIZE];
    assert Slot(was, j) == was[..HEADER_SIZE * k][HEADER_SIZE * j..HEADER_SIZE * j + HEADER_SIZE];
  }
}
