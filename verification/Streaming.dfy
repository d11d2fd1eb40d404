/** Where chunks live in the streamed texture: slot indices, packed distances, and origin shifts. */
module Streaming {
  import opened Geometry
  import opened Worlds

  const LOADED_CHUNKS_X: int := 16
  const LOADED_CHUNKS_Z: int := 16
  const WORLD_CHUNKS_Y: int := 16
  const TOTAL_CHUNKS: nat := 4096

  /** Integer division as the source's `/` on `i32`: towards zero. */
  function TruncDiv(a: int, b: int): int
    requires b > 0
  {
    if a >= 0 then a / b else -(-a / b)
  }

  /** The quotient of the source's division: the remainder is small and never points away from zero. */
  lemma TruncDivIs(a: int, b: int)
    requires b > 0
    ensures var r := a - b * TruncDiv(a, b); -b < r < b && (a >= 0 ==> r >= 0) && (a <= 0 ==> r <= 0)
  {}

  // ----- slots

  function ChunkIndexToWorldPos(idx: nat, origin: Pos): Pos {
    Pos(TruncDiv(origin.x, CHUNK_SIZE) + idx % LOADED_CHUNKS_X,
        idx / (LOADED_CHUNKS_X * LOADED_CHUNKS_Z),
        TruncDiv(origin.z, CHUNK_SIZE) + idx / LOADED_CHUNKS_X % LOADED_CHUNKS_Z)
  }

  function WorldPosToChunkIndex(origin: Pos, p: Pos): Option<nat> {
    var relX, relY, relZ := p.x - TruncDiv(origin.x, CHUNK_SIZE), p.y, p.z - TruncDiv(origin.z, CHUNK_SIZE);
    if !(0 <= relX < LOADED_CHUNKS_X) || !(0 <= relZ < LOADED_CHUNKS_Z) || !(0 <= relY < WORLD_CHUNKS_Y) then None
    else Some(relX + relZ * LOADED_CHUNKS_X + relY * LOADED_CHUNKS_X * LOADED_CHUNKS_Z)
  }

  /** Slots and the chunks inside the texture are in one-to-one correspondence. */
  lemma SlotsAreChunks(origin: Pos, idx: nat, p: Pos)
    ensures idx < TOTAL_CHUNKS && ChunkIndexToWorldPos(idx, origin) == p <==> WorldPosToChunkIndex(origin, p) == Some(idx)
  {
    var x, z, y := idx % 16, idx / 16 % 16, idx / 256;
    assert idx == x + 16 * z + 256 * y by {
      assert idx / 16 / 16 == idx / 256;
    }
    if WorldPosToChunkIndex(origin, p) == Some(idx) {
      var relX, relY, relZ := p.x - TruncDiv(origin.x, CHUNK_SIZE), p.y, p.z - TruncDiv(origin.z, CHUNK_SIZE);
      assert idx == relX + 16 * relZ + 256 * relY;
      assert x == relX && z == relZ && y == relY;
    }
  }

  // ----- distances packed four to a word

  function ByteAt(bytes: seq<Byte>, i: nat): int {
    if i < |bytes| then bytes[i] else 0
  }

  function PackWord(bytes: seq<Byte>, i: nat): nat {
    ByteAt(bytes, 4 * i) + 0x100 * ByteAt(bytes, 4 * i + 1)
    + 0x1_0000 * ByteAt(bytes, 4 * i + 2) + 0x100_0000 * ByteAt(bytes, 4 * i + 3)
  }

  /** Byte i of a packed array, as a shader reads it. */
  function Unpack(words: seq<nat>, i: nat): nat
    requires i / 4 < |words|
  {
    var w := words[i / 4];
    if i % 4 == 0 then w % 0x100
    else if i % 4 == 1 then w / 0x100 % 0x100
    else if i % 4 == 2 then w / 0x1_0000 % 0x100
    else w / 0x100_0000 % 0x100
  }

  /** Sixteen words; 64 distances fill them. */
  method PackDistances(distances: seq<Byte>) returns (out: seq<nat>)
    requires |distances| <= 64
    ensures out == Packed(distances)
  {
    out := seq(16, _ => 0);
    var i := 0;
    while 4 * i < |distances|
      invariant 0 <= i <= 16 && |out| == 16
      invariant forall k :: 0 <= k < 16 ==> out[k] == if k < i then PackWord(distances, k) else 0
      decreases |distances| - 4 * i
    {
      out := out[i := PackWord(distances, i)];
      i := i + 1;
    }
  }

  function Packed(distances: seq<Byte>): (words: seq<nat>)
    ensures |words| == 16
  {
    seq(16, i requires 0 <= i < 16 => PackWord(distances, i))
  }

  lemma FourBytes(a: Byte, b: Byte, c: Byte, d: Byte)
    ensures var w := a + 0x100 * b + 0x1_0000 * c + 0x100_0000 * d;
            w % 0x100 == a && w / 0x100 % 0x100 == b && w / 0x1_0000 % 0x100 == c && w / 0x100_0000 % 0x100 == d
  {
    var high := c + 0x100 * d;
    assert (a + 0x100 * (b + 0x100 * high)) / 0x100 == b + 0x100 * high;
    assert (a + 0x100 * (b + 0x100 * high)) / 0x1_0000 == high;
    assert (a + 0x100 * b + 0x1_0000 * high) / 0x100_0000 == d;
  }

  /** Every distance can be read back from the packed words. */
  lemma PackRoundTrip(distances: seq<Byte>, i: nat)
    requires i < |distances| <= 64
    ensures Unpack(Packed(distances), i) == distances[i]
  {
    var k := i / 4;
    FourBytes(ByteAt(distances, 4 * k), ByteAt(distances, 4 * k + 1), ByteAt(distances, 4 * k + 2), ByteAt(distances, 4 * k + 3));
  }

  // ----- origin shifts

  /** The sign of a velocity; zero counts as positive. */
  function Signum(v: real): int {
    if v >= 0.0 then 1 else -1
  }

  function SignumInt(i: int): int {
    if i > 0 then 1 else if i == 0 then 0 else -1
  }

  /** The corner of the texture centred on a chunk. */
  function CentredOn(chunk: Pos): Pos {
    Pos((chunk.x - LOADED_CHUNKS_X / 2) * CHUNK_SIZE, 0, (chunk.z - LOADED_CHUNKS_Z / 2) * CHUNK_SIZE)
  }

  function Threshold(loaded: int, velocity: real, offset: int): int {
    if Signum(velocity) == SignumInt(offset) then loaded / 6 else loaded / 4
  }

  /** How far the player's chunk is from the texture's centre. */
  function OffsetX(origin: Pos, chunk: Pos): int {
    chunk.x - (TruncDiv(origin.x, CHUNK_SIZE) + LOADED_CHUNKS_X / 2)
  }

  function OffsetZ(origin: Pos, chunk: Pos): int {
    chunk.z - (TruncDiv(origin.z, CHUNK_SIZE) + LOADED_CHUNKS_Z / 2)
  }

  predicate NeedsShift(origin: Pos, chunk: Pos, velocityX: real, velocityZ: real) {
    var dx, dz := OffsetX(origin, chunk), OffsetZ(origin, chunk);
    Abs(dx) > Threshold(LOADED_CHUNKS_X, velocityX, dx) || Abs(dz) > Threshold(LOADED_CHUNKS_Z, velocityZ, dz)
  }

  /** Off the centre by more than a quarter of the sixteen chunks, or by more than a sixth and moving on that way. */
  predicate Strays(offset: int, velocity: real) {
    || offset > 4 || offset < -4
    || (offset > 2 && velocity >= 0.0) || (offset < -2 && velocity < 0.0)
  }

  /** When a shift is asked for, by where the player's chunk is from the centre and which way the player moves. */
  lemma ShiftIff(origin: Pos, chunk: Pos, velocityX: real, velocityZ: real)
    ensures NeedsShift(origin, chunk, velocityX, velocityZ)
            <==> || Strays(chunk.x - (TruncDiv(origin.x, 32) + 8), velocityX)
                 || Strays(chunk.z - (TruncDiv(origin.z, 32) + 8), velocityZ)
  {}

  /** After a shift to a chunk, only the way from that chunk counts. */
  lemma NextShiftIff(centre: Pos, chunk: Pos, velocityX: real, velocityZ: real)
    ensures NeedsShift(CentredOn(centre), chunk, velocityX, velocityZ)
            <==> Strays(chunk.x - centre.x, velocityX) || Strays(chunk.z - centre.z, velocityZ)
  {
    ShiftIff(CentredOn(centre), chunk, velocityX, velocityZ);
  }

  function ShiftedOrigin(origin: Pos, chunk: Pos, velocityX: real, velocityZ: real): Pos {
    if NeedsShift(origin, chunk, velocityX, velocityZ) then CentredOn(chunk) else origin
  }

  /** After the check the player's chunk has a slot, at most a quarter of the texture from its centre. */
  lemma PlayerStaysInTexture(origin: Pos, chunk: Pos, velocityX: real, velocityZ: real)
    requires 0 <= chunk.y < WORLD_CHUNKS_Y
    ensures var o := ShiftedOrigin(origin, chunk, velocityX, velocityZ);
            && WorldPosToChunkIndex(o, chunk).Some?
            && Abs(OffsetX(o, chunk)) <= LOADED_CHUNKS_X / 4 && Abs(OffsetZ(o, chunk)) <= LOADED_CHUNKS_Z / 4
  {}

  /** A shift does not trigger another one: right after it no velocity asks for a shift. */
  lemma ShiftSettles(chunk: Pos, velocityX: real, velocityZ: real)
    ensures !NeedsShift(CentredOn(chunk), chunk, velocityX, velocityZ)
  {}

  /** One camera coordinate, from texture units to world units. */
  function CameraWorld(position: real, origin: int, scale: real): real {
    origin as real + position * scale
  }

  /** The adjustment of a camera coordinate on a shift. */
  function AdjustedCamera(position: real, oldOrigin: int, newOrigin: int, scale: real): real
    requires scale > 0.0
  {
    position + (oldOrigin - newOrigin) as real / scale
  }

  /** A shift leaves the camera where it is in the world. */
  lemma ShiftKeepsCamera(position: real, oldOrigin: int, newOrigin: int, scale: real)
    requires scale > 0.0
    ensures CameraWorld(AdjustedCamera(position, oldOrigin, newOrigin, scale), newOrigin, scale)
            == CameraWorld(position, oldOrigin, scale)
  {}
}
