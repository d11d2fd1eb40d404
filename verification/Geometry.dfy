/** Positions on the block grid, chunk sizes, and the small definitions that all modules share. */
module Geometry {

  datatype Option<+T> = None | Some(value: T)

  /** A grid position or a grid offset (`Vector3<i32>`; the model has no i32 overflow). */
  datatype Pos = Pos(x: int, y: int, z: int) {
    function Plus(d: Pos): Pos {
      Pos(x + d.x, y + d.y, z + d.z)
    }
  }

  /** A point or direction in space; reals stand for the source's floats. */
  datatype Vec = Vec(x: real, y: real, z: real)

  /** The six orthogonal offsets, in the order of `ORTHO_DIRS`. */
  const ORTHO_DIRS: seq<Pos> :=
    [Pos(1, 0, 0), Pos(-1, 0, 0), Pos(0, 1, 0), Pos(0, -1, 0), Pos(0, 0, 1), Pos(0, 0, -1)]

  /** World height in blocks: 16 chunks of 32 (`TEXTURE_SIZE_Y`). */
  const TEXTURE_SIZE_Y: int := 512

  /** Blocks along an axis of a chunk, and in a chunk. */
  const CHUNK_SIZE: int := 32
  const CHUNK_VOLUME: int := 32768

  predicate YInBounds(y: int) {
    0 <= y < TEXTURE_SIZE_Y
  }

  /** One byte of storage. */
  type Byte = b: int | 0 <= b < 256

  function Elements(s: seq<Pos>): set<Pos> {
    set p | p in s
  }

  function MinNat(a: nat, b: nat): nat {
    if a < b then a else b
  }

  function Abs(i: int): nat {
    if i < 0 then -i else i
  }
}
