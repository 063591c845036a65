/**
 * The world storage: coordinate transforms, the map from horizontal chunk
 * coordinates to columns, block reads and writes through that map, the
 * change-list of edits to uploaded chunks, and the face-visibility bits of
 * each block.
 */
module ChunkManagement {
  import opened Wrappers
  import opened Chunks

  // ---------------------------------------------------------------------
  // Coordinate transforms
  // ---------------------------------------------------------------------

  /** One axis of the global-to-chunk transform: the chunk that holds
      coordinate `v`. For negative `v` the source computes
      `(v + 1) / 16 - 1` with division rounding toward zero; as `v + 1` is
      not positive there, that division is the negated quotient of
      `-(v + 1)`. */
  function ChunkAxis(v: int): (c: int)
    ensures 16 * c <= v < 16 * c + 16
  {
    if v < 0 then -((-(v + 1)) / 16) - 1 else v / 16
  }

  /** A step of at most one block moves at most one chunk. */
  lemma ChunkAxisNear(v: int, d: int, c: int)
    requires -1 <= d <= 1 && ChunkAxis(v) == c
    ensures -1 <= ChunkAxis(v + d) - c <= 1
  {
  }

  /** `v` is global coordinate `16 * c + l` with local part `l` in [0, 16). */
  predicate Splits(v: int, c: int, l: int) {
    0 <= l < CHUNK_SIZE && v == 16 * c + l
  }

  /** At most one (chunk, local) pair describes a global coordinate. */
  lemma SplitsUnique(v: int, c: int, l: int, c': int, l': int)
    requires Splits(v, c, l) && Splits(v, c', l')
    ensures c == c' && l == l'
  {
  }

  /** Chunk coordinates and in-chunk coordinates of a global block:
      (chunk_x, chunk_y, chunk_z, block_x, block_y, block_z). */
  function GetChunkCoords(x: int, y: int, z: int): (r: (int, int, int, int, int, int))
    ensures Splits(x, r.0, r.3) && Splits(y, r.1, r.4) && Splits(z, r.2, r.5)
    ensures r.0 == ChunkAxis(x) && r.1 == ChunkAxis(y) && r.2 == ChunkAxis(z)
  {
    var (cx, cy, cz) := (ChunkAxis(x), ChunkAxis(y), ChunkAxis(z));
    (cx, cy, cz, x - 16 * cx, y - 16 * cy, z - 16 * cz)
  }

  /** The chunk coordinate is the floor of v / 16 and the local coordinate
      the Euclidean remainder, negative coordinates included. */
  lemma ChunkCoordsAreFloorDivision(x: int, y: int, z: int)
    ensures GetChunkCoords(x, y, z) == (x / 16, y / 16, z / 16, x % 16, y % 16, z % 16)
  {
    var r := GetChunkCoords(x, y, z);
    SplitsUnique(x, r.0, r.3, x / 16, x % 16);
    SplitsUnique(y, r.1, r.4, y / 16, y % 16);
    SplitsUnique(z, r.2, r.5, z / 16, z % 16);
  }

  /** Inverse transform: from chunk and local coordinates back to global ones. */
  function GetGlobalCoords(t: (int, int, int, int, int, int)): (int, int, int) {
    (16 * t.0 + t.3, 16 * t.1 + t.4, 16 * t.2 + t.5)
  }

  /** Global to local and back is the identity, for every integer position. */
  lemma GlobalRoundTrip(x: int, y: int, z: int)
    ensures GetGlobalCoords(GetChunkCoords(x, y, z)) == (x, y, z)
  {
  }

  /** Local to global and back is the identity when the local part is in range. */
  lemma LocalRoundTrip(t: (int, int, int, int, int, int))
    requires InChunk(t.3, t.4, t.5)
    ensures GetChunkCoords(GetGlobalCoords(t).0, GetGlobalCoords(t).1, GetGlobalCoords(t).2) == t
  {
    var g := GetGlobalCoords(t);
    var r := GetChunkCoords(g.0, g.1, g.2);
    SplitsUnique(g.0, r.0, r.3, t.0, t.3);
    SplitsUnique(g.1, r.1, r.4, t.1, t.4);
    SplitsUnique(g.2, r.2, r.5, t.2, t.5);
  }

  /** The negative edge case: block -1 lies in chunk -1 at local 15. */
  lemma MinusOneIsLastOfPreviousChunk()
    ensures GetChunkCoords(-1, -1, -1) == (-1, -1, -1, 15, 15, 15)
  {
  }

  // ---------------------------------------------------------------------
  // Queries over the column map
  // ---------------------------------------------------------------------

  /** The column map: horizontal chunk coordinate (x, z) to its column. */
  type World = map<(int, int), Column>

  ghost predicate WorldValid(w: World) {
    forall k | k in w :: w[k].Valid()
  }

  function GetColumn(w: World, x: int, z: int): (r: Option<Column>)
    ensures r.Some? <==> (x, z) in w
    ensures r.Some? ==> r.value == w[(x, z)]
  {
    if (x, z) in w then Some(w[(x, z)]) else None
  }

  /** The chunk at chunk coordinates (x, y, z); none above or below the
      world or where no column is loaded. */
  function GetChunk(w: World, x: int, y: int, z: int): (r: Option<Chunk>)
    requires WorldValid(w)
    ensures r.None? <==> y < 0 || y >= COLUMN_HEIGHT || (x, z) !in w
    ensures r.Some? ==> r.value == w[(x, z)].chunks[y] && r.value.Valid()
  {
    if y < 0 || y >= COLUMN_HEIGHT then None
    else match GetColumn(w, x, z)
      case Some(column) => Some(column.chunks[y])
      case None => None
  }

  /** The block at global position (x, y, z), if its chunk is loaded. */
  function GetBlock(w: World, x: int, y: int, z: int): (r: Option<BlockID>)
    requires WorldValid(w)
  {
    var (cx, cy, cz, lx, ly, lz) := GetChunkCoords(x, y, z);
    match GetChunk(w, cx, cy, cz)
    case Some(chunk) => Some(chunk.GetBlock(lx, ly, lz))
    case None => None
  }

  /** `get_block` finds the block at floor(v / 16) chunk coordinates and
      Euclidean-remainder local coordinates, and nothing when that chunk is
      above or below the world or its column is not loaded. */
  lemma GetBlockLooksUpFloorChunk(w: World, x: int, y: int, z: int)
    requires WorldValid(w)
    ensures GetBlock(w, x, y, z).Some? <==> 0 <= y / 16 < COLUMN_HEIGHT && (x / 16, z / 16) in w
    ensures GetBlock(w, x, y, z).Some? ==>
      GetBlock(w, x, y, z).value == w[(x / 16, z / 16)].chunks[y / 16].blocks[BlockIndex(x % 16, y % 16, z % 16)]
  {
    ChunkCoordsAreFloorDivision(x, y, z);
  }

  /** A loaded, non-air block. */
  function IsSolidBlockAt(w: World, x: int, y: int, z: int): (r: bool)
    requires WorldValid(w)
    ensures r <==> exists b :: GetBlock(w, x, y, z) == Some(b) && b != Air
  {
    match GetBlock(w, x, y, z)
    case Some(b) => b != Air
    case None => false
  }

  /** Offsets of the six face neighbours, in the order
      right, left, top, bottom, front, back. */
  function FaceOffset(i: int): (d: (int, int, int))
    requires 0 <= i < 6
    ensures -1 <= d.0 <= 1 && -1 <= d.1 <= 1 && -1 <= d.2 <= 1
  {
    match i
    case 0 => (1, 0, 0)
    case 1 => (-1, 0, 0)
    case 2 => (0, 1, 0)
    case 3 => (0, -1, 0)
    case 4 => (0, 0, 1)
    case _ => (0, 0, -1)
  }

  /** A face is seen through a neighbour that is not loaded or is transparent. */
  predicate SeenThrough(o: Option<BlockID>) {
    o.None? || IsTransparent(o.value)
  }

  /** Whether face `i` of the block at global (x, y, z) is seen: the
      neighbour across it is not loaded or is transparent. */
  predicate FaceVisible(w: World, x: int, y: int, z: int, i: int)
    requires WorldValid(w) && 0 <= i < 6
  {
    var (dx, dy, dz) := FaceOffset(i);
    SeenThrough(GetBlock(w, x + dx, y + dy, z + dz))
  }

  /** The six active-face bits of the block at global (x, y, z), in the
      order of `FaceOffset`. */
  function GetActiveFacesOfBlock(w: World, x: int, y: int, z: int): (r: seq<bool>)
    requires WorldValid(w)
    ensures |r| == 6
  {
    seq(6, i requires 0 <= i < 6 => FaceVisible(w, x, y, z, i))
  }

  /** Across a chunk border on the x axis, the right face of the last block
      of chunk (cx, cy, cz) is active exactly when chunk (cx + 1, cy, cz) is
      not loaded or holds a transparent block at the matching local position
      on its first layer. */
  lemma RightFaceAcrossChunkBorder(w: World, cx: int, cy: int, cz: int, ly: int, lz: int)
    requires WorldValid(w) && 0 <= ly < 16 && 0 <= lz < 16
    ensures var g := GetGlobalCoords((cx, cy, cz, 15, ly, lz));
      GetActiveFacesOfBlock(w, g.0, g.1, g.2)[0] <==>
        match GetChunk(w, cx + 1, cy, cz)
        case None => true
        case Some(n) => IsTransparent(n.GetBlock(0, ly, lz))
  {
    var g := GetGlobalCoords((cx, cy, cz, 15, ly, lz));
    LocalRoundTrip((cx + 1, cy, cz, 0, ly, lz));
    assert GetGlobalCoords((cx + 1, cy, cz, 0, ly, lz)) == (g.0 + 1, g.1, g.2);
  }

  // ---------------------------------------------------------------------
  // Writing a block
  // ---------------------------------------------------------------------

  /** The column map with chunk `cy` of the loaded column (cx, cz) replaced by `ch`. */
  function WithChunk(w: World, cx: int, cy: int, cz: int, ch: Chunk): (w': World)
    requires WorldValid(w) && (cx, cz) in w && 0 <= cy < COLUMN_HEIGHT && ch.Valid()
    ensures WorldValid(w') && w'.Keys == w.Keys
    ensures GetChunk(w', cx, cy, cz) == Some(ch)
  {
    var column := w[(cx, cz)];
    w[(cx, cz) := column.(chunks := column.chunks[cy := ch])]
  }

  /** Replacing one chunk leaves every other chunk as it was. */
  lemma WithChunkFrame(w: World, cx: int, cy: int, cz: int, ch: Chunk, x: int, y: int, z: int)
    requires WorldValid(w) && (cx, cz) in w && 0 <= cy < COLUMN_HEIGHT && ch.Valid()
    ensures GetChunk(WithChunk(w, cx, cy, cz, ch), x, y, z) ==
      if (x, y, z) == (cx, cy, cz) then Some(ch) else GetChunk(w, x, y, z)
  {
  }

  /** The column map after storing `b` at global (x, y, z), whose chunk is loaded. */
  function WithBlock(w: World, x: int, y: int, z: int, b: BlockID): (w': World)
    requires WorldValid(w) && GetBlock(w, x, y, z).Some?
    ensures WorldValid(w') && w'.Keys == w.Keys
  {
    var (cx, cy, cz, lx, ly, lz) := GetChunkCoords(x, y, z);
    WithChunk(w, cx, cy, cz, w[(cx, cz)].chunks[cy].SetBlock(lx, ly, lz, b))
  }

  /** Storing a block changes that block and no other, and leaves every
      chunk's flags, faces and occlusion values as they were. */
  lemma WithBlockFrame(w: World, x: int, y: int, z: int, b: BlockID, x': int, y': int, z': int)
    requires WorldValid(w) && GetBlock(w, x, y, z).Some?
    ensures GetBlock(WithBlock(w, x, y, z, b), x', y', z') ==
      if (x', y', z') == (x, y, z) then Some(b) else GetBlock(w, x', y', z')
  {
    var t := GetChunkCoords(x, y, z);
    var t' := GetChunkCoords(x', y', z');
    if (x', y', z') != (x, y, z) && (t'.0, t'.1, t'.2) == (t.0, t.1, t.2)
       && BlockIndex(t.3, t.4, t.5) == BlockIndex(t'.3, t'.4, t'.5) {
      BlockIndexInjective(t.3, t.4, t.5, t'.3, t'.4, t'.5);
      GlobalRoundTrip(x, y, z);
      GlobalRoundTrip(x', y', z');
      assert false;
    }
  }

  /** Whether the chunk holding global block (x, y, z) is loaded and uploaded. */
  predicate ChunkUploadedAt(w: World, x: int, y: int, z: int)
    requires WorldValid(w)
  {
    var (cx, cy, cz, _, _, _) := GetChunkCoords(x, y, z);
    match GetChunk(w, cx, cy, cz)
    case Some(chunk) => chunk.isUploadedToGpu
    case None => false
  }

  // ---------------------------------------------------------------------
  // Recomputing faces and ambient occlusion for listed blocks
  // ---------------------------------------------------------------------

  /** Opacity for ambient occlusion: a loaded block that is not transparent
      (leaves count as opaque). */
  predicate OccludesAo(o: Option<BlockID>) {
    o.Some? && !IsTransparentNoLeaves(o.value)
  }

  /** Offset of the `i`-th cell of a 3x3x3 neighbourhood: (rx, ry, rz) in
      -1..1, x-major, so that `i == 9 * (rx + 1) + 3 * (ry + 1) + (rz + 1)`. */
  function CubeOffset(i: int): (d: (int, int, int))
    requires 0 <= i < 27
    ensures -1 <= d.0 <= 1 && -1 <= d.1 <= 1 && -1 <= d.2 <= 1
  {
    (i / 9 - 1, i / 3 % 3 - 1, i % 3 - 1)
  }


  /** The 27 opacity bits of the 3x3x3 neighbourhood of global (x, y, z), with
      offsets (rx, ry, rz) in -1..1 taken in x-major order; ambient occlusion
      is a function of these bits. */
  function AoOpacity(w: World, x: int, y: int, z: int): (r: seq<bool>)
    requires WorldValid(w)
    ensures |r| == 27
  {
    seq(27, i requires 0 <= i < 27 => CellOccludes(w, x, y, z, i))
  }

  /** Cell `i` of the neighbourhood of global (x, y, z) holds a loaded,
      non-transparent block. */
  predicate CellOccludes(w: World, x: int, y: int, z: int, i: int)
    requires WorldValid(w) && 0 <= i < 27
  {
    var (dx, dy, dz) := CubeOffset(i);
    OccludesAo(GetBlock(w, x + dx, y + dy, z + dz))
  }

  /** The bit set `bits` with the six bits of block slot `idx` replaced by `f`. */
  function WriteFaces(bits: seq<bool>, idx: int, f: seq<bool>): (r: seq<bool>)
    requires 0 <= idx < CHUNK_VOLUME && |bits| == 6 * CHUNK_VOLUME && |f| == 6
    ensures |r| == |bits|
    ensures forall j | 0 <= j < |bits| :: r[j] == if 6 * idx <= j < 6 * idx + 6 then f[j - 6 * idx] else bits[j]
  {
    bits[6 * idx := f[0]][6 * idx + 1 := f[1]][6 * idx + 2 := f[2]]
        [6 * idx + 3 := f[3]][6 * idx + 4 := f[4]][6 * idx + 5 := f[5]]
  }

  /** The slot the chunk at chunk coordinates (cx, cy, cz) should hold for
      its local block `p`: faces and occlusion read from the column map. */
  function FreshSlot(w: World, ao: seq<bool> -> int, cx: int, cy: int, cz: int, p: (int, int, int)): (s: Slot)
    requires WorldValid(w)
    ensures |s.faces| == 6
  {
    var g := GetGlobalCoords((cx, cy, cz, p.0, p.1, p.2));
    Slot(GetActiveFacesOfBlock(w, g.0, g.1, g.2), ao(AoOpacity(w, g.0, g.1, g.2)))
  }

  function FreshSlots(w: World, ao: seq<bool> -> int, cx: int, cy: int, cz: int): (f: ((int, int, int)) -> Slot)
    requires WorldValid(w)
    ensures SixFaces(f)
  {
    p => FreshSlot(w, ao, cx, cy, cz, p)
  }

  ghost predicate SixFaces(slotOf: ((int, int, int)) -> Slot) {
    forall p :: |slotOf(p).faces| == 6
  }

  /** Chunk `ch` after storing slot `s` for its local block `p`; air blocks
      are skipped. */
  function RefreshBlock(ch: Chunk, p: (int, int, int), s: Slot): (r: Chunk)
    requires ch.Valid() && InChunk(p.0, p.1, p.2) && |s.faces| == 6
    ensures r.Valid() && r.blocks == ch.blocks
    ensures r.isGenerated == ch.isGenerated && r.isUploadedToGpu == ch.isUploadedToGpu
    ensures forall i | 0 <= i < CHUNK_VOLUME ::
      r.SlotAt(i) == if i == BlockIndex(p.0, p.1, p.2) && ch.blocks[i] != Air then s else ch.SlotAt(i)
  {
    var idx := BlockIndex(p.0, p.1, p.2);
    if ch.blocks[idx] == Air then ch
    else
      WriteSlot(ch, idx, s);
      ch.(activeFaces := WriteFaces(ch.activeFaces, idx, s.faces), aoVertices := ch.aoVertices[idx := s.ao])
  }

  /** Writing slot `idx` changes that slot and no other. */
  lemma WriteSlot(ch: Chunk, idx: int, s: Slot)
    requires ch.Valid() && 0 <= idx < CHUNK_VOLUME && |s.faces| == 6
    ensures var r := ch.(activeFaces := WriteFaces(ch.activeFaces, idx, s.faces), aoVertices := ch.aoVertices[idx := s.ao]);
      && r.Valid()
      && forall i | 0 <= i < CHUNK_VOLUME :: r.SlotAt(i) == if i == idx then s else ch.SlotAt(i)
  {
    var r := ch.(activeFaces := WriteFaces(ch.activeFaces, idx, s.faces), aoVertices := ch.aoVertices[idx := s.ao]);
    forall i | 0 <= i < CHUNK_VOLUME
      ensures r.SlotAt(i) == if i == idx then s else ch.SlotAt(i)
    {
      WriteFacesSlice(ch.activeFaces, idx, s.faces, i);
    }
  }

  /** The six bits of slot `i` after `WriteFaces`: `f` for the written slot,
      the old bits for every other. */
  lemma WriteFacesSlice(bits: seq<bool>, idx: int, f: seq<bool>, i: int)
    requires 0 <= idx < CHUNK_VOLUME && |bits| == 6 * CHUNK_VOLUME && |f| == 6 && 0 <= i < CHUNK_VOLUME
    ensures WriteFaces(bits, idx, f)[6 * i .. 6 * i + 6] == if i == idx then f else bits[6 * i .. 6 * i + 6]
  {
    var written := WriteFaces(bits, idx, f)[6 * i .. 6 * i + 6];
    var before := bits[6 * i .. 6 * i + 6];
    if i == idx {
      assert forall j | 0 <= j < 6 :: written[j] == f[j];
    } else {
      assert forall j | 0 <= j < 6 :: written[j] == before[j];
    }
  }

  predicate AllInChunk(ps: seq<(int, int, int)>) {
    forall k | 0 <= k < |ps| :: InChunk(ps[k].0, ps[k].1, ps[k].2)
  }

  /** `RefreshBlock` applied to each listed block in turn, with the slot
      `slotOf` gives for it. */
  function RefreshBlocks(ch: Chunk, ps: seq<(int, int, int)>, slotOf: ((int, int, int)) -> Slot): (r: Chunk)
    requires ch.Valid() && AllInChunk(ps) && SixFaces(slotOf)
    ensures r.Valid() && r.blocks == ch.blocks
    ensures r.isGenerated == ch.isGenerated && r.isUploadedToGpu == ch.isUploadedToGpu
    decreases |ps|
  {
    if ps == [] then ch
    else
      var p := ps[|ps| - 1];
      RefreshBlock(RefreshBlocks(ch, ps[..|ps| - 1], slotOf), p, slotOf(p))
  }

  /** Refreshing one more listed block is one more `RefreshBlock`. */
  lemma RefreshBlocksStep(ch: Chunk, ps: seq<(int, int, int)>, slotOf: ((int, int, int)) -> Slot, i: int)
    requires ch.Valid() && AllInChunk(ps) && SixFaces(slotOf) && 0 <= i < |ps|
    ensures AllInChunk(ps[..i]) && AllInChunk(ps[..i + 1])
    ensures RefreshBlocks(ch, ps[..i + 1], slotOf) ==
      RefreshBlock(RefreshBlocks(ch, ps[..i], slotOf), ps[i], slotOf(ps[i]))
  {
    assert ps[..i + 1][..i] == ps[..i];
  }

  /** Slot `i` is the slot of one of the listed blocks. */
  ghost predicate Listed(ps: seq<(int, int, int)>, i: int)
    requires AllInChunk(ps)
  {
    exists k | 0 <= k < |ps| :: BlockIndex(ps[k].0, ps[k].1, ps[k].2) == i
  }

  lemma ListedSnoc(ps: seq<(int, int, int)>, i: int)
    requires AllInChunk(ps) && ps != []
    ensures AllInChunk(ps[..|ps| - 1])
    ensures var p := ps[|ps| - 1];
      Listed(ps, i) <==> Listed(ps[..|ps| - 1], i) || BlockIndex(p.0, p.1, p.2) == i
  {
    var n := |ps| - 1;
    assert forall k | 0 <= k < n :: ps[..n][k] == ps[k];
    if Listed(ps, i) && BlockIndex(ps[n].0, ps[n].1, ps[n].2) != i {
      var k :| 0 <= k < |ps| && BlockIndex(ps[k].0, ps[k].1, ps[k].2) == i;
      assert ps[..n][k] == ps[k];
    }
  }

  /** After the refresh, every slot of a listed non-air block holds what
      `slotOf` gives for that block, and every other slot is unchanged. */
  lemma {:induction false} RefreshBlocksSlots(ch: Chunk, ps: seq<(int, int, int)>,
                                              slotOf: ((int, int, int)) -> Slot, i: int)
    requires ch.Valid() && AllInChunk(ps) && SixFaces(slotOf) && 0 <= i < CHUNK_VOLUME
    ensures RefreshBlocks(ch, ps, slotOf).SlotAt(i) ==
      if ch.blocks[i] != Air && Listed(ps, i) then slotOf(LocalOf(i)) else ch.SlotAt(i)
    decreases |ps|
  {
    if ps != [] {
      var p := ps[|ps| - 1];
      ListedSnoc(ps, i);
      RefreshBlocksSlots(ch, ps[..|ps| - 1], slotOf, i);
      if BlockIndex(p.0, p.1, p.2) == i {
        var q := LocalOf(i);
        BlockIndexInjective(p.0, p.1, p.2, q.0, q.1, q.2);
      }
    }
  }

  /** Two chunks with the same blocks, flags and slots are the same chunk. */
  lemma SlotsDetermineChunk(a: Chunk, b: Chunk)
    requires a.Valid() && b.Valid() && a.blocks == b.blocks
    requires a.isGenerated == b.isGenerated && a.isUploadedToGpu == b.isUploadedToGpu
    requires forall i | 0 <= i < CHUNK_VOLUME :: a.SlotAt(i) == b.SlotAt(i)
    ensures a == b
  {
    forall j | 0 <= j < 6 * CHUNK_VOLUME
      ensures a.activeFaces[j] == b.activeFaces[j]
    {
      var i := j / 6;
      assert a.SlotAt(i).faces[j - 6 * i] == a.activeFaces[j];
      assert b.SlotAt(i).faces[j - 6 * i] == b.activeFaces[j];
    }
    forall i | 0 <= i < CHUNK_VOLUME
      ensures a.aoVertices[i] == b.aoVertices[i]
    {
      assert a.SlotAt(i).ao == b.SlotAt(i).ao;
    }
  }

  /** Recomputing the same listed blocks a second time changes nothing. */
  lemma RefreshBlocksIdempotent(ch: Chunk, ps: seq<(int, int, int)>, slotOf: ((int, int, int)) -> Slot)
    requires ch.Valid() && AllInChunk(ps) && SixFaces(slotOf)
    ensures var once := RefreshBlocks(ch, ps, slotOf);
      RefreshBlocks(once, ps, slotOf) == once
  {
    var once := RefreshBlocks(ch, ps, slotOf);
    var twice := RefreshBlocks(once, ps, slotOf);
    forall i | 0 <= i < CHUNK_VOLUME
      ensures twice.SlotAt(i) == once.SlotAt(i)
    {
      RefreshBlocksSlots(ch, ps, slotOf, i);
      RefreshBlocksSlots(once, ps, slotOf, i);
    }
    SlotsDetermineChunk(twice, once);
  }

  // ---------------------------------------------------------------------
  // The neighbourhood snapshot used by `update_blocks`
  // ---------------------------------------------------------------------

  /** Slot 3 * (dx + 1) + (dz + 1) holds the column at (cx + dx, cz + dz);
      the centre slot is left empty. */
  function Neighbourhood(w: World, cx: int, cz: int): (r: seq<Option<Column>>)
    ensures |r| == 9
  {
    seq(9, k requires 0 <= k < 9 =>
      if k == 4 then None else GetColumn(w, cx + NeighbourOffset(k).0, cz + NeighbourOffset(k).1))
  }

  /** Offset (dx, dz) of neighbourhood slot `k`, so that `k == 3 * (dx + 1) + (dz + 1)`. */
  function NeighbourOffset(k: int): (d: (int, int))
    requires 0 <= k < 9
    ensures -1 <= d.0 <= 1 && -1 <= d.1 <= 1
  {
    (k / 3 - 1, k % 3 - 1)
  }

  /** Slot `3 * (dx + 1) + (dz + 1)` is the one whose offset is (dx, dz). */
  lemma SlotOfNeighbour(dx: int, dz: int)
    requires -1 <= dx <= 1 && -1 <= dz <= 1
    ensures NeighbourOffset(3 * (dx + 1) + (dz + 1)) == (dx, dz)
  {
  }

  /** Every slot but the centre holds the column at its offset. */
  lemma NeighbourhoodSlot(w: World, cx: int, cz: int, dx: int, dz: int)
    requires -1 <= dx <= 1 && -1 <= dz <= 1 && (dx != 0 || dz != 0)
    ensures Neighbourhood(w, cx, cz)[3 * (dx + 1) + (dz + 1)] == GetColumn(w, cx + dx, cz + dz)
  {
    SlotOfNeighbour(dx, dz);
  }

  /** The column and its neighbourhood snapshot have the shape `block_at` reads. */
  ghost predicate SnapshotValid(column: Column, nb: seq<Option<Column>>) {
    && column.Valid() && |nb| == 9
    && forall k | 0 <= k < 9 :: nb[k].Some? ==> nb[k].value.Valid()
  }

  /** `column` and `nb` are the column at (cx, cz) and the neighbourhood
      snapshot `update_blocks` takes around it. */
  ghost predicate IsSnapshot(w: World, cx: int, cz: int, column: Column, nb: seq<Option<Column>>) {
    && WorldValid(w) && (cx, cz) in w
    && column == w[(cx, cz)] && nb == Neighbourhood(w, cx, cz)
    && SnapshotValid(column, nb)
  }

  lemma NeighbourhoodIsSnapshot(w: World, cx: int, cz: int)
    requires WorldValid(w) && (cx, cz) in w
    ensures IsSnapshot(w, cx, cz, w[(cx, cz)], Neighbourhood(w, cx, cz))
  {
  }

  /** `block_at`: the block at a global position whose chunk column lies
      within one column of (cx, cz), read through `column` (the column at
      (cx, cz)) and the neighbourhood snapshot; air where nothing is loaded
      or the position is above or below the world. */
  function BlockAt(column: Column, nb: seq<Option<Column>>, cx: int, cz: int,
                   wx: int, wy: int, wz: int): BlockID
    requires SnapshotValid(column, nb)
    requires -1 <= ChunkAxis(wx) - cx <= 1 && -1 <= ChunkAxis(wz) - cz <= 1
  {
    var t := GetChunkCoords(wx, wy, wz);
    if t.1 < 0 || t.1 >= COLUMN_HEIGHT then Air
    else if cx == t.0 && cz == t.2 then column.chunks[t.1].GetBlock(t.3, t.4, t.5)
    else
      var k := 3 * (t.0 - cx + 1) + (t.2 - cz + 1);
      match nb[k]
      case Some(n) => assert n.Valid(); n.chunks[t.1].GetBlock(t.3, t.4, t.5)
      case None => Air
  }

  function BlockOrAir(o: Option<BlockID>): BlockID {
    match o
    case Some(b) => b
    case None => Air
  }

  /** `block_at` over the snapshot reads the same block as `get_block`,
      with air for what is not loaded. */
  lemma BlockAtAgrees(w: World, cx: int, cz: int, wx: int, wy: int, wz: int)
    requires WorldValid(w) && (cx, cz) in w
    requires SnapshotValid(w[(cx, cz)], Neighbourhood(w, cx, cz))
    requires -1 <= ChunkAxis(wx) - cx <= 1 && -1 <= ChunkAxis(wz) - cz <= 1
    ensures BlockAt(w[(cx, cz)], Neighbourhood(w, cx, cz), cx, cz, wx, wy, wz) == BlockOrAir(GetBlock(w, wx, wy, wz))
  {
    var t := GetChunkCoords(wx, wy, wz);
    if t.1 < 0 || t.1 >= COLUMN_HEIGHT {
      assert GetChunk(w, t.0, t.1, t.2).None?;
    } else if t.0 == cx && t.2 == cz {
      BlockAtOwnColumn(w, cx, cz, wx, wy, wz);
    } else {
      BlockAtNeighbour(w, cx, cz, wx, wy, wz);
    }
  }

  lemma BlockAtOwnColumn(w: World, cx: int, cz: int, wx: int, wy: int, wz: int)
    requires WorldValid(w) && (cx, cz) in w
    requires SnapshotValid(w[(cx, cz)], Neighbourhood(w, cx, cz))
    requires ChunkAxis(wx) == cx && ChunkAxis(wz) == cz && 0 <= ChunkAxis(wy) < COLUMN_HEIGHT
    ensures BlockAt(w[(cx, cz)], Neighbourhood(w, cx, cz), cx, cz, wx, wy, wz) == BlockOrAir(GetBlock(w, wx, wy, wz))
  {
  }

  lemma BlockAtNeighbour(w: World, cx: int, cz: int, wx: int, wy: int, wz: int)
    requires WorldValid(w) && (cx, cz) in w
    requires SnapshotValid(w[(cx, cz)], Neighbourhood(w, cx, cz))
    requires -1 <= ChunkAxis(wx) - cx <= 1 && -1 <= ChunkAxis(wz) - cz <= 1
    requires (ChunkAxis(wx), ChunkAxis(wz)) != (cx, cz) && 0 <= ChunkAxis(wy) < COLUMN_HEIGHT
    ensures BlockAt(w[(cx, cz)], Neighbourhood(w, cx, cz), cx, cz, wx, wy, wz) == BlockOrAir(GetBlock(w, wx, wy, wz))
  {
    var t := GetChunkCoords(wx, wy, wz);
    NeighbourhoodSlot(w, cx, cz, t.0 - cx, t.2 - cz);
  }

  /** `compute_active_faces` inside `update_blocks`: face `i` is active when
      the block across it, read through the snapshot, is transparent. */
  function ComputeActiveFaces(column: Column, nb: seq<Option<Column>>, cx: int, cz: int,
                              x: int, y: int, z: int): (r: seq<bool>)
    requires SnapshotValid(column, nb)
    requires ChunkAxis(x) == cx && ChunkAxis(z) == cz
    ensures |r| == 6
  {
    seq(6, i requires 0 <= i < 6 => SeenInSnapshot(column, nb, cx, cz, x, y, z, i))
  }

  /** Face `i` of the block at global (x, y, z), read through the snapshot:
      the block across it is transparent. */
  predicate SeenInSnapshot(column: Column, nb: seq<Option<Column>>, cx: int, cz: int,
                           x: int, y: int, z: int, i: int)
    requires SnapshotValid(column, nb)
    requires ChunkAxis(x) == cx && ChunkAxis(z) == cz && 0 <= i < 6
  {
    var (dx, dy, dz) := FaceOffset(i);
    ChunkAxisNear(x, dx, cx);
    ChunkAxisNear(z, dz, cz);
    IsTransparent(BlockAt(column, nb, cx, cz, x + dx, y + dy, z + dz))
  }

  /** Air stands in for an unloaded block: faces are seen through it. */
  lemma OrAirSeen(o: Option<BlockID>)
    ensures IsTransparent(BlockOrAir(o)) == SeenThrough(o)
  {
  }

  lemma FaceAgrees(w: World, cx: int, cz: int, x: int, y: int, z: int, i: int)
    requires WorldValid(w) && (cx, cz) in w && 0 <= i < 6
    requires ChunkAxis(x) == cx && ChunkAxis(z) == cz
    requires SnapshotValid(w[(cx, cz)], Neighbourhood(w, cx, cz))
    ensures SeenInSnapshot(w[(cx, cz)], Neighbourhood(w, cx, cz), cx, cz, x, y, z, i) == FaceVisible(w, x, y, z, i)
  {
    var (dx, dy, dz) := FaceOffset(i);
    PointSeen(w, cx, cz, x, y, z, dx, dy, dz);
  }

  lemma PointSeen(w: World, cx: int, cz: int, x: int, y: int, z: int, dx: int, dy: int, dz: int)
    requires WorldValid(w) && (cx, cz) in w
    requires ChunkAxis(x) == cx && ChunkAxis(z) == cz && -1 <= dx <= 1 && -1 <= dz <= 1
    requires SnapshotValid(w[(cx, cz)], Neighbourhood(w, cx, cz))
    ensures -1 <= ChunkAxis(x + dx) - cx <= 1 && -1 <= ChunkAxis(z + dz) - cz <= 1
    ensures IsTransparent(BlockAt(w[(cx, cz)], Neighbourhood(w, cx, cz), cx, cz, x + dx, y + dy, z + dz))
         == SeenThrough(GetBlock(w, x + dx, y + dy, z + dz))
  {
    ChunkAxisNear(x, dx, cx);
    ChunkAxisNear(z, dz, cz);
    BlockAtAgrees(w, cx, cz, x + dx, y + dy, z + dz);
    OrAirSeen(GetBlock(w, x + dx, y + dy, z + dz));
  }

  /** The faces `update_blocks` computes through the snapshot are the faces
      `get_active_faces_of_block` computes through the map. */
  lemma ComputeActiveFacesAgrees(w: World, cx: int, cz: int, x: int, y: int, z: int)
    requires WorldValid(w) && (cx, cz) in w
    requires ChunkAxis(x) == cx && ChunkAxis(z) == cz
    ensures SnapshotValid(w[(cx, cz)], Neighbourhood(w, cx, cz))
    ensures ComputeActiveFaces(w[(cx, cz)], Neighbourhood(w, cx, cz), cx, cz, x, y, z)
         == GetActiveFacesOfBlock(w, x, y, z)
  {
    NeighbourhoodIsSnapshot(w, cx, cz);
    var a := ComputeActiveFaces(w[(cx, cz)], Neighbourhood(w, cx, cz), cx, cz, x, y, z);
    forall i | 0 <= i < 6 ensures a[i] == GetActiveFacesOfBlock(w, x, y, z)[i] {
      FaceAgrees(w, cx, cz, x, y, z, i);
    }
  }

  /** The occlusion inputs `update_blocks` gathers through the snapshot. */
  function AoOpacityAt(column: Column, nb: seq<Option<Column>>, cx: int, cz: int,
                       x: int, y: int, z: int): (r: seq<bool>)
    requires SnapshotValid(column, nb)
    requires ChunkAxis(x) == cx && ChunkAxis(z) == cz
    ensures |r| == 27
  {
    seq(27, i requires 0 <= i < 27 => OccludesInSnapshot(column, nb, cx, cz, x, y, z, i))
  }

  /** Cell `i` of the neighbourhood of global (x, y, z), read through the
      snapshot, holds a block that is not transparent. */
  predicate OccludesInSnapshot(column: Column, nb: seq<Option<Column>>, cx: int, cz: int,
                               x: int, y: int, z: int, i: int)
    requires SnapshotValid(column, nb)
    requires ChunkAxis(x) == cx && ChunkAxis(z) == cz && 0 <= i < 27
  {
    var (dx, dy, dz) := CubeOffset(i);
    ChunkAxisNear(x, dx, cx);
    ChunkAxisNear(z, dz, cz);
    !IsTransparentNoLeaves(BlockAt(column, nb, cx, cz, x + dx, y + dy, z + dz))
  }

  /** Air stands in for an unloaded block: it occludes nothing. */
  lemma OrAirOccludes(o: Option<BlockID>)
    ensures !IsTransparentNoLeaves(BlockOrAir(o)) == OccludesAo(o)
  {
  }

  lemma AoBitAgrees(w: World, cx: int, cz: int, x: int, y: int, z: int, i: int)
    requires WorldValid(w) && (cx, cz) in w && 0 <= i < 27
    requires ChunkAxis(x) == cx && ChunkAxis(z) == cz
    requires SnapshotValid(w[(cx, cz)], Neighbourhood(w, cx, cz))
    ensures OccludesInSnapshot(w[(cx, cz)], Neighbourhood(w, cx, cz), cx, cz, x, y, z, i) == CellOccludes(w, x, y, z, i)
  {
    var (dx, dy, dz) := CubeOffset(i);
    PointOccludes(w, cx, cz, x, y, z, dx, dy, dz);
  }

  lemma PointOccludes(w: World, cx: int, cz: int, x: int, y: int, z: int, dx: int, dy: int, dz: int)
    requires WorldValid(w) && (cx, cz) in w
    requires ChunkAxis(x) == cx && ChunkAxis(z) == cz && -1 <= dx <= 1 && -1 <= dz <= 1
    requires SnapshotValid(w[(cx, cz)], Neighbourhood(w, cx, cz))
    ensures -1 <= ChunkAxis(x + dx) - cx <= 1 && -1 <= ChunkAxis(z + dz) - cz <= 1
    ensures !IsTransparentNoLeaves(BlockAt(w[(cx, cz)], Neighbourhood(w, cx, cz), cx, cz, x + dx, y + dy, z + dz))
         == OccludesAo(GetBlock(w, x + dx, y + dy, z + dz))
  {
    ChunkAxisNear(x, dx, cx);
    ChunkAxisNear(z, dz, cz);
    BlockAtAgrees(w, cx, cz, x + dx, y + dy, z + dz);
    OrAirOccludes(GetBlock(w, x + dx, y + dy, z + dz));
  }

  /** The occlusion inputs gathered through the snapshot are those read
      through the map. */
  lemma AoOpacityAgrees(w: World, cx: int, cz: int, x: int, y: int, z: int)
    requires WorldValid(w) && (cx, cz) in w
    requires ChunkAxis(x) == cx && ChunkAxis(z) == cz
    ensures SnapshotValid(w[(cx, cz)], Neighbourhood(w, cx, cz))
    ensures AoOpacityAt(w[(cx, cz)], Neighbourhood(w, cx, cz), cx, cz, x, y, z) == AoOpacity(w, x, y, z)
  {
    NeighbourhoodIsSnapshot(w, cx, cz);
    var a := AoOpacityAt(w[(cx, cz)], Neighbourhood(w, cx, cz), cx, cz, x, y, z);
    forall i | 0 <= i < 27 ensures a[i] == AoOpacity(w, x, y, z)[i] {
      AoBitAgrees(w, cx, cz, x, y, z, i);
    }
  }

  /** The slot `update_blocks` computes for local block `p` through the
      snapshot is the slot `update_block` computes through the map. */
  lemma SnapshotSlotAgrees(w: World, ao: seq<bool> -> int, cx: int, cy: int, cz: int, p: (int, int, int))
    requires WorldValid(w) && (cx, cz) in w && InChunk(p.0, p.1, p.2)
    ensures SnapshotValid(w[(cx, cz)], Neighbourhood(w, cx, cz))
    ensures var g := GetGlobalCoords((cx, cy, cz, p.0, p.1, p.2));
      && ChunkAxis(g.0) == cx && ChunkAxis(g.2) == cz
      && FreshSlot(w, ao, cx, cy, cz, p) ==
         Slot(ComputeActiveFaces(w[(cx, cz)], Neighbourhood(w, cx, cz), cx, cz, g.0, g.1, g.2),
              ao(AoOpacityAt(w[(cx, cz)], Neighbourhood(w, cx, cz), cx, cz, g.0, g.1, g.2)))
  {
    var g := GetGlobalCoords((cx, cy, cz, p.0, p.1, p.2));
    LocalRoundTrip((cx, cy, cz, p.0, p.1, p.2));
    ComputeActiveFacesAgrees(w, cx, cz, g.0, g.1, g.2);
    AoOpacityAgrees(w, cx, cz, g.0, g.1, g.2);
  }

  // ---------------------------------------------------------------------
  // The chunk manager
  // ---------------------------------------------------------------------

  /** An entry of the change-list: (priority, block, x, y, z). */
  type Change = (int, BlockID, int, int, int)

  class ChunkManager {
    var loadedChunkColumns: World
    var blockChangelist: set<Change>
    /** `compute_ao_of_block`, from the 27 opacity bits to an occlusion value. */
    const aoOfBlock: seq<bool> -> int

    ghost predicate Valid()
      reads this
    {
      WorldValid(loadedChunkColumns)
    }

    constructor (aoOfBlock: seq<bool> -> int)
      ensures Valid() && this.aoOfBlock == aoOfBlock
      ensures loadedChunkColumns == map[] && blockChangelist == {}
    {
      this.aoOfBlock := aoOfBlock;
      loadedChunkColumns := map[];
      blockChangelist := {};
    }

    /** Inserts the column unless one is already stored at `xz`. */
    method AddChunkColumn(xz: (int, int), column: Column)
      requires Valid() && column.Valid()
      modifies this
      ensures Valid() && blockChangelist == old(blockChangelist)
      ensures loadedChunkColumns ==
        if xz in old(loadedChunkColumns) then old(loadedChunkColumns) else old(loadedChunkColumns)[xz := column]
    {
      if xz !in loadedChunkColumns {
        loadedChunkColumns := loadedChunkColumns[xz := column];
      }
    }

    /** Removes the column at `xz` and returns what was stored there. */
    method RemoveChunkColumn(xz: (int, int)) returns (r: Option<Column>)
      requires Valid()
      modifies this`loadedChunkColumns
      ensures Valid()
      ensures r == GetColumn(old(loadedChunkColumns), xz.0, xz.1)
      ensures loadedChunkColumns == old(loadedChunkColumns) - {xz}
    {
      r := GetColumn(loadedChunkColumns, xz.0, xz.1);
      loadedChunkColumns := loadedChunkColumns - {xz};
    }

    /** Stores `block` at global (x, y, z); false, and nothing changes, when
        its chunk is not loaded. An edit to an uploaded chunk is recorded in
        the change-list with `priority`. */
    method SetBlockInternal(priority: int, x: int, y: int, z: int, block: BlockID) returns (ok: bool)
      requires Valid()
      modifies this
      ensures Valid()
      ensures ok <==> old(GetBlock(loadedChunkColumns, x, y, z)).Some?
      ensures !ok ==> loadedChunkColumns == old(loadedChunkColumns)
      ensures ok ==> loadedChunkColumns == old(WithBlock(loadedChunkColumns, x, y, z, block))
      ensures blockChangelist ==
        if ok && old(ChunkUploadedAt(loadedChunkColumns, x, y, z))
        then old(blockChangelist) + {(priority, block, x, y, z)}
        else old(blockChangelist)
    {
      var (cx, cy, cz, lx, ly, lz) := GetChunkCoords(x, y, z);
      match GetChunk(loadedChunkColumns, cx, cy, cz)
      case Some(chunk) =>
        loadedChunkColumns := WithChunk(loadedChunkColumns, cx, cy, cz, chunk.SetBlock(lx, ly, lz, block));
        if chunk.isUploadedToGpu {
          blockChangelist := blockChangelist + {(priority, block, x, y, z)};
        }
        ok := true;
      case None =>
        ok := false;
    }

    /** An edit made by an entity, such as the player: priority 1. */
    method PutBlock(x: int, y: int, z: int, block: BlockID) returns (ok: bool)
      requires Valid()
      modifies this
      ensures Valid()
      ensures ok <==> old(GetBlock(loadedChunkColumns, x, y, z)).Some?
      ensures !ok ==> loadedChunkColumns == old(loadedChunkColumns)
      ensures ok ==> loadedChunkColumns == old(WithBlock(loadedChunkColumns, x, y, z, block))
      ensures blockChangelist ==
        if ok && old(ChunkUploadedAt(loadedChunkColumns, x, y, z))
        then old(blockChangelist) + {(1, block, x, y, z)}
        else old(blockChangelist)
    {
      ok := SetBlockInternal(1, x, y, z, block);
    }

    /** An edit made by world generation: priority 0. */
    method SetBlock(x: int, y: int, z: int, block: BlockID) returns (ok: bool)
      requires Valid()
      modifies this
      ensures Valid()
      ensures ok <==> old(GetBlock(loadedChunkColumns, x, y, z)).Some?
      ensures !ok ==> loadedChunkColumns == old(loadedChunkColumns)
      ensures ok ==> loadedChunkColumns == old(WithBlock(loadedChunkColumns, x, y, z, block))
      ensures blockChangelist ==
        if ok && old(ChunkUploadedAt(loadedChunkColumns, x, y, z))
        then old(blockChangelist) + {(0, block, x, y, z)}
        else old(blockChangelist)
    {
      ok := SetBlockInternal(0, x, y, z, block);
    }

    /** Recomputes faces and occlusion of the listed blocks of chunk
        (cx, cy, cz), reading neighbours through a snapshot of the columns
        around it. Nothing happens when its column is not loaded or the
        chunk is empty. */
    method UpdateBlocks(cx: int, cy: int, cz: int, blocks: seq<(int, int, int)>)
      requires Valid() && 0 <= cy < COLUMN_HEIGHT && AllInChunk(blocks)
      modifies this
      ensures Valid() && blockChangelist == old(blockChangelist)
      ensures var w := old(loadedChunkColumns);
        loadedChunkColumns ==
          if (cx, cz) !in w || w[(cx, cz)].chunks[cy].IsEmpty() then w
          else WithChunk(w, cx, cy, cz, RefreshBlocks(w[(cx, cz)].chunks[cy], blocks, FreshSlots(w, aoOfBlock, cx, cy, cz)))
    {
      var w := loadedChunkColumns;
      if (cx, cz) !in w {
        return;
      }
      var column := w[(cx, cz)];
      var chunk := column.chunks[cy];
      if chunk.IsEmpty() {
        return;
      }
      var nb := CollectNeighbourhood(cx, cz);
      chunk := RefreshThroughSnapshot(column, nb, cx, cy, cz, blocks);
      loadedChunkColumns := WithChunk(w, cx, cy, cz, chunk);
    }

    /** The loop of `update_blocks`: for each listed non-air block of chunk
        `cy` of `column`, the faces and occlusion value read through the
        snapshot `nb` are written to its slot. */
    method RefreshThroughSnapshot(column: Column, nb: seq<Option<Column>>, cx: int, cy: int, cz: int,
                                  blocks: seq<(int, int, int)>) returns (chunk: Chunk)
      requires Valid() && (cx, cz) in loadedChunkColumns && 0 <= cy < COLUMN_HEIGHT && AllInChunk(blocks)
      requires column == loadedChunkColumns[(cx, cz)] && nb == Neighbourhood(loadedChunkColumns, cx, cz)
      ensures chunk == RefreshBlocks(column.chunks[cy], blocks, FreshSlots(loadedChunkColumns, aoOfBlock, cx, cy, cz))
    {
      var w := loadedChunkColumns;
      var slotOf := FreshSlots(w, aoOfBlock, cx, cy, cz);
      chunk := column.chunks[cy];
      for i := 0 to |blocks|
        invariant AllInChunk(blocks[..i])
        invariant chunk == RefreshBlocks(column.chunks[cy], blocks[..i], slotOf)
      {
        RefreshBlocksStep(column.chunks[cy], blocks, slotOf, i);
        var p := blocks[i];
        if chunk.GetBlock(p.0, p.1, p.2) != Air {
          SnapshotSlotAgrees(w, aoOfBlock, cx, cy, cz, p);
          var g := GetGlobalCoords((cx, cy, cz, p.0, p.1, p.2));
          var af := ComputeActiveFaces(column, nb, cx, cz, g.0, g.1, g.2);
          var blockAo := aoOfBlock(AoOpacityAt(column, nb, cx, cz, g.0, g.1, g.2));
          var idx := BlockIndex(p.0, p.1, p.2);
          chunk := chunk.(activeFaces := WriteFaces(chunk.activeFaces, idx, af),
                          aoVertices := chunk.aoVertices[idx := blockAo]);
        }
      }
      assert blocks[..|blocks|] == blocks;
    }

    /** The 3x3 neighbourhood of columns around (cx, cz), centre excluded. */
    method CollectNeighbourhood(cx: int, cz: int) returns (nb: seq<Option<Column>>)
      ensures nb == Neighbourhood(loadedChunkColumns, cx, cz)
    {
      nb := seq(9, _ => None);
      for x := -1 to 2
        invariant |nb| == 9
        invariant forall k | 0 <= k < 3 * (x + 1) :: nb[k] == Neighbourhood(loadedChunkColumns, cx, cz)[k]
        invariant forall k | 3 * (x + 1) <= k < 9 :: nb[k] == None
      {
        for z := -1 to 2
          invariant |nb| == 9
          invariant forall k | 0 <= k < 3 * (x + 1) + (z + 1) :: nb[k] == Neighbourhood(loadedChunkColumns, cx, cz)[k]
          invariant forall k | 3 * (x + 1) + (z + 1) <= k < 9 :: nb[k] == None
        {
          var k := 3 * (x + 1) + (z + 1);
          SlotOfNeighbour(x, z);
          nb := nb[k := if x == 0 && z == 0 then None else GetColumn(loadedChunkColumns, cx + x, cz + z)];
        }
      }
    }

    /** Recomputes faces and occlusion of one block of chunk (cx, cy, cz),
        reading neighbours through the map; air is skipped. Panics, changing
        nothing, when the chunk is not loaded. */
    method UpdateBlock(cx: int, cy: int, cz: int, lx: int, ly: int, lz: int) returns (panicked: bool)
      requires Valid() && InChunk(lx, ly, lz)
      modifies this
      ensures Valid() && blockChangelist == old(blockChangelist)
      ensures panicked <==> old(GetChunk(loadedChunkColumns, cx, cy, cz)).None?
      ensures var w := old(loadedChunkColumns);
        loadedChunkColumns ==
          if panicked then w
          else WithChunk(w, cx, cy, cz, RefreshBlock(w[(cx, cz)].chunks[cy], (lx, ly, lz), FreshSlot(w, aoOfBlock, cx, cy, cz, (lx, ly, lz))))
    {
      var w := loadedChunkColumns;
      var found := GetChunk(w, cx, cy, cz);
      if found.None? {
        return true;
      }
      var chunk := found.value;
      if chunk.GetBlock(lx, ly, lz) == Air {
        assert w[(cx, cz)].(chunks := w[(cx, cz)].chunks[cy := chunk]) == w[(cx, cz)];
        return false;
      }
      var updated := RecomputeBlock(w, chunk, cx, cy, cz, lx, ly, lz);
      loadedChunkColumns := WithChunk(w, cx, cy, cz, updated);
      return false;
    }

    /** The non-air branch of `update_block`: faces and occlusion of the
        block, read from the map, written into its slot of `chunk`. */
    method RecomputeBlock(w: World, chunk: Chunk, cx: int, cy: int, cz: int, lx: int, ly: int, lz: int)
      returns (updated: Chunk)
      requires WorldValid(w) && chunk.Valid() && InChunk(lx, ly, lz) && chunk.GetBlock(lx, ly, lz) != Air
      ensures updated == RefreshBlock(chunk, (lx, ly, lz), FreshSlot(w, aoOfBlock, cx, cy, cz, (lx, ly, lz)))
    {
      var g := GetGlobalCoords((cx, cy, cz, lx, ly, lz));
      var idx := BlockIndex(lx, ly, lz);
      var af := GetActiveFacesOfBlock(w, g.0, g.1, g.2);
      var faces := WriteFaces(chunk.activeFaces, idx, af);
      var blockAo := aoOfBlock(AoOpacity(w, g.0, g.1, g.2));
      updated := chunk.(activeFaces := faces, aoVertices := chunk.aoVertices[idx := blockAo]);
    }
  }
}
