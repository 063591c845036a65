/**
 * The per-chunk and per-column data the storage layer works on. The chunk
 * type itself lives in a module that is not part of this model; only what
 * the chunk manager and the loading system observe of it is kept here:
 * the block grid, the active-face bit set, the ambient-occlusion array,
 * the two status flags, and the column's heightmap and foliage flag.
 */
module Chunks {

  /** Side length of a chunk, in blocks. */
  const CHUNK_SIZE: int := 16
  /** Number of blocks in a chunk. */
  const CHUNK_VOLUME: int := 4096
  /** Number of chunks stacked in one column. */
  const COLUMN_HEIGHT: int := 16

  /** The block kinds that the modelled code names. */
  datatype BlockID = Air | Stone | Dirt | GrassBlock | Bedrock | OakLog | OakLeaves | Cobblestone

  /** Blocks through which a neighbouring face can be seen. */
  predicate IsTransparent(b: BlockID) {
    b == Air || b == OakLeaves
  }

  /** Transparency as ambient occlusion sees it: leaves count as opaque. */
  predicate IsTransparentNoLeaves(b: BlockID) {
    b == Air
  }

  /** A local block coordinate lies inside a chunk. */
  predicate InChunk(x: int, y: int, z: int) {
    0 <= x < CHUNK_SIZE && 0 <= y < CHUNK_SIZE && 0 <= z < CHUNK_SIZE
  }

  /** Position of local block (x, y, z) in the chunk's flat arrays. */
  function BlockIndex(x: int, y: int, z: int): (i: int)
    requires InChunk(x, y, z)
    ensures 0 <= i < CHUNK_VOLUME
  {
    256 * y + 16 * z + x
  }

  /** Distinct local coordinates occupy distinct array slots. */
  lemma BlockIndexInjective(x: int, y: int, z: int, x': int, y': int, z': int)
    requires InChunk(x, y, z) && InChunk(x', y', z')
    requires BlockIndex(x, y, z) == BlockIndex(x', y', z')
    ensures x == x' && y == y' && z == z'
  {
  }

  /** The local coordinate stored at array slot `i`; inverse of `BlockIndex`. */
  function LocalOf(i: int): (p: (int, int, int))
    requires 0 <= i < CHUNK_VOLUME
    ensures InChunk(p.0, p.1, p.2) && BlockIndex(p.0, p.1, p.2) == i
  {
    (i % 16, i / 256, (i / 16) % 16)
  }

  /** What a chunk records for one block besides its kind: its six
      active-face bits and its ambient-occlusion value. */
  datatype Slot = Slot(faces: seq<bool>, ao: int)

  datatype Chunk = Chunk(
    blocks: seq<BlockID>,
    activeFaces: seq<bool>,
    aoVertices: seq<int>,
    isGenerated: bool,
    isUploadedToGpu: bool)
  {
    /** The arrays have the sizes a chunk allocates. */
    ghost predicate Valid() {
      |blocks| == CHUNK_VOLUME && |activeFaces| == 6 * CHUNK_VOLUME && |aoVertices| == CHUNK_VOLUME
    }

    function GetBlock(x: int, y: int, z: int): BlockID
      requires Valid() && InChunk(x, y, z)
    {
      blocks[BlockIndex(x, y, z)]
    }

    function SetBlock(x: int, y: int, z: int, b: BlockID): (c: Chunk)
      requires Valid() && InChunk(x, y, z)
      ensures c.Valid()
    {
      this.(blocks := blocks[BlockIndex(x, y, z) := b])
    }

    /** The face bits and occlusion value of array slot `idx`. */
    function SlotAt(idx: int): (s: Slot)
      requires Valid() && 0 <= idx < CHUNK_VOLUME
      ensures |s.faces| == 6
    {
      Slot(activeFaces[6 * idx .. 6 * idx + 6], aoVertices[idx])
    }

    /** A chunk with no solid block. */
    predicate IsEmpty() {
      forall i | 0 <= i < |blocks| :: blocks[i] == Air
    }
  }

  /** A freshly allocated chunk: all air, no faces, not generated, not uploaded. */
  function NewChunk(): (c: Chunk)
    ensures c.Valid() && c.IsEmpty()
  {
    Chunk(seq(CHUNK_VOLUME, _ => Air), seq(6 * CHUNK_VOLUME, _ => false),
          seq(CHUNK_VOLUME, _ => 0), false, false)
  }

  datatype Column = Column(chunks: seq<Chunk>, highestBlocks: seq<int>, hasFoliage: bool)
  {
    ghost predicate Valid() {
      && |chunks| == COLUMN_HEIGHT
      && (forall y | 0 <= y < |chunks| :: chunks[y].Valid())
      && |highestBlocks| == 256
    }
  }

  /** A freshly allocated column. */
  function NewColumn(): (c: Column)
    ensures c.Valid() && !c.hasFoliage
  {
    Column(seq(COLUMN_HEIGHT, _ => NewChunk()), seq(256, _ => 0), false)
  }
}
