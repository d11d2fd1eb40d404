/** The block store of the world: chunks of air, and the blocks that differ from it. */
module Worlds {
  import opened Geometry
  import opened BlockTypes

  /** Floor division: the model's `/` is Euclidean, as `div_euclid` is. */
  function ChunkOf(p: Pos): Pos {
    Pos(p.x / CHUNK_SIZE, p.y / CHUNK_SIZE, p.z / CHUNK_SIZE)
  }

  /** The loaded chunks and the blocks set in them; a block never set is air. */
  datatype Blocks = Blocks(loaded: set<Pos>, cells: map<Pos, BlockType>) {
    /** None in an unloaded chunk. */
    function Get(p: Pos): Option<BlockType> {
      if ChunkOf(p) !in loaded then None else Some(if p in cells then cells[p] else Air)
    }

    /** Creates the chunk when it is missing. */
    function Put(p: Pos, b: BlockType): (r: Blocks)
      ensures r.Get(p) == Some(b)
      ensures forall q :: q != p && Get(q).Some? ==> r.Get(q) == Get(q)
    {
      Blocks(loaded + {ChunkOf(p)}, cells[p := b])
    }
  }

  class World {
    var blocks: Blocks

    constructor ()
      ensures blocks == Blocks({}, map[])
    {
      blocks := Blocks({}, map[]);
    }

    method SetBlock(p: Pos, b: BlockType)
      modifies this
      ensures blocks == old(blocks).Put(p, b)
    {
      blocks := blocks.(loaded := blocks.loaded + {ChunkOf(p)}, cells := blocks.cells[p := b]);
    }
  }
}
