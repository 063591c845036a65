/**
 * The per-frame steps of the chunk-loading system, run one after another
 * over the storage model: eviction of distant columns into a pool of
 * reusable columns, servicing requests for columns from that pool,
 * draining the upload queue within a per-frame budget, the meshing of the
 * chunks an expansion cycle discovered, and turning the change-list into
 * per-chunk groups of blocks to recompute. The worker threads, channels
 * and locks of the source become sequential state changes; a channel is a
 * sequence the sender appends to and the receiver empties.
 */
module ChunkLoading {
  import opened Wrappers
  import opened Chunks
  import opened ChunkManagement
  import opened ColumnFloodFill
  import opened ChunkFloodFill
  import opened Priorities

  /** A request to upload the chunk at the given chunk coordinates. */
  type UploadRequest = PrioritizedItem<Cell3>

  function Min(a: int, b: int): int {
    if a < b then a else b
  }

  // ---------------------------------------------------------------------
  // Upload draining
  // ---------------------------------------------------------------------

  /** The column map after chunk c is marked as uploaded, if it is loaded. */
  function MarkOneUploaded(w: World, c: Cell3): (w': World)
    requires WorldValid(w)
    ensures WorldValid(w') && w'.Keys == w.Keys
  {
    match GetChunk(w, c.0, c.1, c.2)
    case Some(chunk) => WithChunk(w, c.0, c.1, c.2, chunk.(isUploadedToGpu := true))
    case None => w
  }

  /** The column map after each requested chunk, in turn, is marked as
      uploaded; requests for chunks that are not loaded have no effect. */
  function MarkUploaded(w: World, requests: seq<UploadRequest>): (w': World)
    requires WorldValid(w)
    ensures WorldValid(w') && w'.Keys == w.Keys
    decreases |requests|
  {
    if requests == [] then w
    else MarkOneUploaded(MarkUploaded(w, requests[..|requests| - 1]), requests[|requests| - 1].item)
  }

  /** One more request is one more chunk marked. */
  lemma MarkUploadedSnoc(w: World, requests: seq<UploadRequest>, r: UploadRequest)
    requires WorldValid(w)
    ensures MarkUploaded(w, requests + [r]) == MarkOneUploaded(MarkUploaded(w, requests), r.item)
  {
    assert (requests + [r])[..|requests|] == requests;
  }

  /** `popped` is in order of non-increasing priority, and nothing left in
      `rest` outranks anything popped. */
  ghost predicate PoppedInOrder(popped: seq<UploadRequest>, rest: seq<UploadRequest>) {
    && (forall i, j | 0 <= i < j < |popped| :: popped[i].priority >= popped[j].priority)
    && (forall i, q | 0 <= i < |popped| && q in rest :: q.priority <= popped[i].priority)
  }

  /** Popping a request of greatest priority keeps the drain in order. */
  lemma PopKeepsOrder(popped: seq<UploadRequest>, queue: seq<UploadRequest>, rest: seq<UploadRequest>, r: UploadRequest)
    requires PoppedInOrder(popped, queue) && r in queue
    requires forall q | q in queue :: q.priority <= r.priority
    requires multiset(rest) + multiset{r} == multiset(queue)
    ensures PoppedInOrder(popped + [r], rest)
  {
    forall q | q in rest
      ensures q in queue
    {
      assert multiset(rest)[q] > 0;
      assert multiset(queue)[q] > 0;
    }
  }

  /** Some request names chunk c. */
  ghost predicate Requested(requests: seq<UploadRequest>, c: Cell3) {
    exists i | 0 <= i < |requests| :: requests[i].item == c
  }

  /** Draining uploads loads no chunk and unloads none; a loaded chunk ends
      up marked as uploaded exactly when it was already or it was requested,
      and nothing else about it changes. */
  lemma {:induction false} MarkUploadedEffect(w: World, requests: seq<UploadRequest>, x: int, y: int, z: int)
    requires WorldValid(w)
    ensures GetChunk(MarkUploaded(w, requests), x, y, z) ==
      match GetChunk(w, x, y, z)
      case None => None
      case Some(ch) => Some(if Requested(requests, (x, y, z)) then ch.(isUploadedToGpu := true) else ch)
    decreases |requests|
  {
    if requests != [] {
      var n := |requests| - 1;
      var prefix := requests[..n];
      MarkUploadedEffect(w, prefix, x, y, z);
      var w0 := MarkUploaded(w, prefix);
      var c := requests[n].item;
      if Requested(prefix, (x, y, z)) {
        var i :| 0 <= i < n && prefix[i].item == (x, y, z);
        assert requests[i] == prefix[i];
      }
      match GetChunk(w0, c.0, c.1, c.2)
      case Some(chunk) =>
        WithChunkFrame(w0, c.0, c.1, c.2, chunk.(isUploadedToGpu := true), x, y, z);
      case None =>
    }
  }

  // ---------------------------------------------------------------------
  // Eviction
  // ---------------------------------------------------------------------

  /** Chunk (x, y, z) is farther than `renderDistance` from the viewer's
      chunk on some axis. */
  predicate ChunkOutOfRange(x: int, y: int, z: int, viewer: Cell3, renderDistance: int) {
    Abs(x - viewer.0) > renderDistance || Abs(y - viewer.1) > renderDistance || Abs(z - viewer.2) > renderDistance
  }

  /** Column `xz` is farther than `renderDistance + 2` from the viewer's
      chunk along x or z. */
  predicate ColumnOutOfRange(xz: (int, int), viewer: Cell3, renderDistance: int) {
    Abs(xz.0 - viewer.0) > renderDistance + 2 || Abs(xz.1 - viewer.2) > renderDistance + 2
  }

  /** Column `column` at `xz` with its out-of-range chunks unloaded from the GPU. */
  function UnloadFarChunks(column: Column, xz: (int, int), viewer: Cell3, renderDistance: int): (c: Column)
    ensures |c.chunks| == |column.chunks| && c.highestBlocks == column.highestBlocks && c.hasFoliage == column.hasFoliage
    ensures column.Valid() ==> c.Valid()
  {
    column.(chunks := seq(|column.chunks|, y requires 0 <= y < |column.chunks| =>
      if ChunkOutOfRange(xz.0, y, xz.1, viewer, renderDistance)
      then column.chunks[y].(isUploadedToGpu := false)
      else column.chunks[y]))
  }

  /** The column map after eviction: out-of-range columns are gone and the
      out-of-range chunks of the others are unloaded. */
  function Evicted(w: World, viewer: Cell3, renderDistance: int): (w': World)
    requires WorldValid(w)
    ensures WorldValid(w')
    ensures forall xz :: xz in w' <==> xz in w && !ColumnOutOfRange(xz, viewer, renderDistance)
  {
    map xz | xz in w && !ColumnOutOfRange(xz, viewer, renderDistance) :: UnloadFarChunks(w[xz], xz, viewer, renderDistance)
  }

  /** After eviction a chunk is loaded iff it was and its column is in
      range; it is then unloaded from the GPU iff it is out of range, and
      otherwise unchanged. */
  lemma EvictedChunk(w: World, viewer: Cell3, renderDistance: int, x: int, y: int, z: int)
    requires WorldValid(w)
    ensures GetChunk(Evicted(w, viewer, renderDistance), x, y, z) ==
      if ColumnOutOfRange((x, z), viewer, renderDistance) then None
      else match GetChunk(w, x, y, z)
        case None => None
        case Some(ch) => Some(if ChunkOutOfRange(x, y, z, viewer, renderDistance) then ch.(isUploadedToGpu := false) else ch)
  {
  }

  /** A chunk out of range whose column is kept is never left marked as uploaded. */
  lemma NoFarChunkStaysUploaded(w: World, viewer: Cell3, renderDistance: int, x: int, y: int, z: int)
    requires WorldValid(w) && ChunkOutOfRange(x, y, z, viewer, renderDistance)
    requires GetChunk(Evicted(w, viewer, renderDistance), x, y, z).Some?
    ensures !GetChunk(Evicted(w, viewer, renderDistance), x, y, z).value.isUploadedToGpu
  {
    EvictedChunk(w, viewer, renderDistance, x, y, z);
  }

  /** Unloading every column and then removing the listed ones is eviction. */
  lemma EvictedByPasses(w: World, viewer: Cell3, renderDistance: int, unloaded: World,
                        toRemove: seq<(int, int)>, result: World)
    requires WorldValid(w) && unloaded.Keys == w.Keys
    requires forall xz | xz in w :: unloaded[xz] == UnloadFarChunks(w[xz], xz, viewer, renderDistance)
    requires forall xz :: xz in toRemove <==> xz in w && ColumnOutOfRange(xz, viewer, renderDistance)
    requires forall xz :: xz in result <==> xz in unloaded && xz !in toRemove
    requires forall xz | xz in result :: result[xz] == unloaded[xz]
    ensures result == Evicted(w, viewer, renderDistance)
  {
  }

  /** The second pass of eviction over the column map `w`: each listed
      column that is still loaded leaves the map and joins, in list order,
      the columns handed back for the pool; one that is not loaded is
      skipped. */
  function RemoveEach<K(!new), V(==)>(w: map<K, V>, toRemove: seq<K>): (r: (map<K, V>, seq<V>))
    ensures forall xz :: xz in r.0 <==> xz in w && xz !in toRemove
    ensures forall xz | xz in r.0 :: r.0[xz] == w[xz]
    ensures forall c | c in r.1 :: c in w.Values
    decreases |toRemove|
  {
    if toRemove == [] then (w, [])
    else
      var (rest, pool) := RemoveEach(w, toRemove[..|toRemove| - 1]);
      var xz := toRemove[|toRemove| - 1];
      if xz in rest then (rest - {xz}, pool + [rest[xz]]) else (rest, pool)
  }

  /** One more listed column: it leaves the map and joins the pool if it is
      still loaded. */
  lemma RemoveEachSnoc<K(!new), V>(w: map<K, V>, toRemove: seq<K>, i: int)
    requires 0 <= i < |toRemove|
    ensures var (rest, pool) := RemoveEach(w, toRemove[..i]);
      RemoveEach(w, toRemove[..i + 1]) ==
        if toRemove[i] in rest then (rest - {toRemove[i]}, pool + [rest[toRemove[i]]]) else (rest, pool)
  {
    assert toRemove[..i + 1][..i] == toRemove[..i];
  }

  /** Removing distinct loaded columns hands back each of them, in list order. */
  lemma {:induction false} RemoveEachDistinct<K(!new), V>(w: map<K, V>, toRemove: seq<K>)
    requires Distinct(toRemove) && forall xz | xz in toRemove :: xz in w
    ensures |RemoveEach(w, toRemove).1| == |toRemove|
    ensures forall j | 0 <= j < |toRemove| :: RemoveEach(w, toRemove).1[j] == w[toRemove[j]]
    decreases |toRemove|
  {
    if toRemove != [] {
      var prefix := toRemove[..|toRemove| - 1];
      var xz := toRemove[|toRemove| - 1];
      assert forall i | 0 <= i < |prefix| :: prefix[i] == toRemove[i];
      RemoveEachDistinct(w, prefix);
      var before := RemoveEach(w, prefix);
      assert xz in before.0;
    }
  }

  /** The inner loop of eviction: unloads the out-of-range chunks of one column. */
  method UnloadColumn(column: Column, xz: (int, int), viewer: Cell3, renderDistance: int) returns (c: Column)
    ensures c == UnloadFarChunks(column, xz, viewer, renderDistance)
  {
    c := column;
    for y := 0 to |column.chunks|
      invariant c.highestBlocks == column.highestBlocks && c.hasFoliage == column.hasFoliage
      invariant |c.chunks| == |column.chunks|
      invariant forall y' | 0 <= y' < |c.chunks| ::
                  c.chunks[y'] == if y' < y && ChunkOutOfRange(xz.0, y', xz.1, viewer, renderDistance)
                                  then column.chunks[y'].(isUploadedToGpu := false)
                                  else column.chunks[y']
    {
      if ChunkOutOfRange(xz.0, y, xz.1, viewer, renderDistance) {
        c := c.(chunks := c.chunks[y := c.chunks[y].(isUploadedToGpu := false)]);
      }
    }
  }

  /** The first pass of eviction, over the columns in the map's own order
      (any order): every column gets its out-of-range chunks unloaded, and
      the out-of-range columns are listed, each once. */
  method UnloadAll(w: World, viewer: Cell3, renderDistance: int) returns (unloaded: World, toRemove: seq<(int, int)>)
    requires WorldValid(w)
    ensures unloaded.Keys == w.Keys && WorldValid(unloaded)
    ensures forall xz | xz in w :: unloaded[xz] == UnloadFarChunks(w[xz], xz, viewer, renderDistance)
    ensures Distinct(toRemove)
    ensures forall xz :: xz in toRemove <==> xz in w && ColumnOutOfRange(xz, viewer, renderDistance)
  {
    unloaded := w;
    toRemove := [];
    var keys := w.Keys;
    while keys != {}
      invariant keys <= w.Keys && unloaded.Keys == w.Keys
      invariant forall xz | xz in w ::
                  unloaded[xz] == if xz in keys then w[xz] else UnloadFarChunks(w[xz], xz, viewer, renderDistance)
      invariant Distinct(toRemove)
      invariant forall xz :: xz in toRemove <==> xz in w && xz !in keys && ColumnOutOfRange(xz, viewer, renderDistance)
      decreases keys
    {
      var xz :| xz in keys;
      var column := UnloadColumn(w[xz], xz, viewer, renderDistance);
      unloaded := unloaded[xz := column];
      if ColumnOutOfRange(xz, viewer, renderDistance) {
        toRemove := toRemove + [xz];
      }
      keys := keys - {xz};
    }
  }

  // ---------------------------------------------------------------------
  // The column pool
  // ---------------------------------------------------------------------

  /** How many column requests one frame services: all of them, unless the
      time cap is reached first; `capReached[i]` says whether it is reached
      after the `i`-th. The first request is always serviced. */
  function Served(requests: nat, capReached: seq<bool>): (n: nat)
    ensures n <= requests && (requests > 0 ==> n >= 1)
    ensures forall i | 0 <= i < n - 1 && i < |capReached| :: !capReached[i]
    ensures n < requests ==> 0 < n <= |capReached| && capReached[n - 1]
  {
    ServedFrom(0, requests, capReached)
  }

  function ServedFrom(i: nat, requests: nat, capReached: seq<bool>): (n: nat)
    requires i <= requests
    ensures i <= n <= requests && (i < requests ==> n > i)
    ensures forall j | i <= j < n - 1 && j < |capReached| :: !capReached[j]
    ensures n < requests ==> 0 < n <= |capReached| && capReached[n - 1]
    decreases requests - i
  {
    if i == requests then i
    else if i < |capReached| && capReached[i] then i + 1
    else ServedFrom(i + 1, requests, capReached)
  }

  /** Reuse of a pooled column: every chunk is reset, the heightmap is
      zeroed and the foliage flag cleared, which leaves a column no
      different from a freshly allocated one. */
  method ResetColumn(column: Column) returns (c: Column)
    requires column.Valid()
    ensures c == NewColumn()
  {
    c := column;
    for y := 0 to |c.chunks|
      invariant |c.chunks| == COLUMN_HEIGHT
      invariant forall y' | 0 <= y' < y :: c.chunks[y'] == NewChunk()
    {
      c := c.(chunks := c.chunks[y := NewChunk()]);
    }
    c := c.(highestBlocks := seq(256, _ => 0), hasFoliage := false);
    assert c.chunks == NewColumn().chunks;
  }

  // ---------------------------------------------------------------------
  // Meshing newly discovered chunks
  // ---------------------------------------------------------------------

  /** Every local block position, in array order: the positions
      `BlockIterator::new()` visits. */
  function AllBlocks(): (ps: seq<(int, int, int)>)
    ensures |ps| == CHUNK_VOLUME && AllInChunk(ps)
  {
    seq(CHUNK_VOLUME, i requires 0 <= i < CHUNK_VOLUME => LocalOf(i))
  }

  /** A full recompute visits every block of the chunk. */
  lemma AllBlocksCoverChunk(x: int, y: int, z: int)
    requires InChunk(x, y, z)
    ensures (x, y, z) in AllBlocks()
  {
    var i := BlockIndex(x, y, z);
    var p := AllBlocks()[i];
    BlockIndexInjective(x, y, z, p.0, p.1, p.2);
  }

  /** The column map after `update_blocks` on the listed blocks of chunk c:
      unchanged when the chunk is not loaded or holds no solid block. */
  function Remeshed(w: World, ao: seq<bool> -> int, c: Cell3, blocks: seq<(int, int, int)>): (w': World)
    requires WorldValid(w) && AllInChunk(blocks)
    ensures WorldValid(w') && w'.Keys == w.Keys
  {
    match GetChunk(w, c.0, c.1, c.2)
    case None => w
    case Some(chunk) =>
      if chunk.IsEmpty() then w
      else WithChunk(w, c.0, c.1, c.2, RefreshBlocks(chunk, blocks, FreshSlots(w, ao, c.0, c.1, c.2)))
  }

  /** The column map after the meshing task for chunk c: an empty chunk is
      marked generated and uploaded; any other is fully recomputed and
      marked generated. */
  function Meshed(w: World, ao: seq<bool> -> int, c: Cell3): (w': World)
    requires WorldValid(w)
    ensures WorldValid(w') && w'.Keys == w.Keys
  {
    match GetChunk(w, c.0, c.1, c.2)
    case None => w
    case Some(chunk) =>
      if chunk.IsEmpty() then WithChunk(w, c.0, c.1, c.2, chunk.(isGenerated := true, isUploadedToGpu := true))
      else
        var w0 := Remeshed(w, ao, c, AllBlocks());
        WithChunk(w0, c.0, c.1, c.2, w0[(c.0, c.2)].chunks[c.1].(isGenerated := true))
  }

  /** The upload request the meshing task for chunk c sends: one at
      priority 0 for a loaded chunk that is not empty. */
  function MeshRequest(w: World, c: Cell3): (r: seq<UploadRequest>)
    requires WorldValid(w)
  {
    match GetChunk(w, c.0, c.1, c.2)
    case Some(chunk) => if chunk.IsEmpty() then [] else [PrioritizedItem(c, 0)]
    case None => []
  }

  /** Meshing chunk c leaves it generated, keeps its blocks, marks it
      uploaded iff it was or it is empty, and gives each of its non-air
      blocks the faces and occlusion value read from the map; no other
      chunk changes. */
  lemma MeshedChunk(w: World, ao: seq<bool> -> int, c: Cell3, x: int, y: int, z: int)
    requires WorldValid(w)
    ensures var before := GetChunk(w, x, y, z);
      var after := GetChunk(Meshed(w, ao, c), x, y, z);
      && after.Some? == before.Some?
      && ((x, y, z) != c ==> after == before)
      && ((x, y, z) == c && before.Some? ==>
          && after.value.isGenerated
          && after.value.blocks == before.value.blocks
          && after.value.isUploadedToGpu == (before.value.isUploadedToGpu || before.value.IsEmpty())
          && forall i | 0 <= i < CHUNK_VOLUME && before.value.blocks[i] != Air && !before.value.IsEmpty() ::
               after.value.SlotAt(i) == FreshSlot(w, ao, c.0, c.1, c.2, LocalOf(i)))
  {
    var before := GetChunk(w, c.0, c.1, c.2);
    if before.Some? {
      var chunk := before.value;
      if chunk.IsEmpty() {
        WithChunkFrame(w, c.0, c.1, c.2, chunk.(isGenerated := true, isUploadedToGpu := true), x, y, z);
      } else {
        var slotOf := FreshSlots(w, ao, c.0, c.1, c.2);
        var refreshed := RefreshBlocks(chunk, AllBlocks(), slotOf);
        var w0 := Remeshed(w, ao, c, AllBlocks());
        WithChunkFrame(w, c.0, c.1, c.2, refreshed, x, y, z);
        WithChunkFrame(w0, c.0, c.1, c.2, refreshed.(isGenerated := true), x, y, z);
        forall i | 0 <= i < CHUNK_VOLUME && chunk.blocks[i] != Air
          ensures refreshed.SlotAt(i) == FreshSlot(w, ao, c.0, c.1, c.2, LocalOf(i))
        {
          RefreshBlocksSlots(chunk, AllBlocks(), slotOf, i);
          assert AllBlocks()[i] == LocalOf(i);
        }
      }
    }
  }

  /** The column maps after meshing each listed chunk in turn. */
  function MeshedAll(w: World, ao: seq<bool> -> int, cs: seq<Cell3>): (w': World)
    requires WorldValid(w)
    ensures WorldValid(w') && w'.Keys == w.Keys
    decreases |cs|
  {
    if cs == [] then w else Meshed(MeshedAll(w, ao, cs[..|cs| - 1]), ao, cs[|cs| - 1])
  }

  /** The upload requests the meshing tasks send, in task order. */
  function MeshRequests(w: World, ao: seq<bool> -> int, cs: seq<Cell3>): (r: seq<UploadRequest>)
    requires WorldValid(w)
    decreases |cs|
  {
    if cs == [] then []
    else
      var prefix := cs[..|cs| - 1];
      MeshRequests(w, ao, prefix) + MeshRequest(MeshedAll(w, ao, prefix), cs[|cs| - 1])
  }

  /** Meshing never changes whether a chunk is loaded or empty. */
  lemma {:induction false} MeshedAllKeepsBlocks(w: World, ao: seq<bool> -> int, cs: seq<Cell3>, x: int, y: int, z: int)
    requires WorldValid(w)
    ensures var before := GetChunk(w, x, y, z);
      var after := GetChunk(MeshedAll(w, ao, cs), x, y, z);
      after.Some? == before.Some? && (after.Some? ==> after.value.blocks == before.value.blocks)
    decreases |cs|
  {
    if cs != [] {
      MeshedAllKeepsBlocks(w, ao, cs[..|cs| - 1], x, y, z);
      MeshedChunk(MeshedAll(w, ao, cs[..|cs| - 1]), ao, cs[|cs| - 1], x, y, z);
    }
  }

  /** Meshing requests an upload, at priority 0, of exactly the listed chunks
      that are loaded and hold a solid block. */
  lemma {:induction false} MeshRequestsExactly(w: World, ao: seq<bool> -> int, cs: seq<Cell3>, r: UploadRequest)
    requires WorldValid(w)
    ensures r in MeshRequests(w, ao, cs) <==>
      r.priority == 0 && r.item in cs && GetChunk(w, r.item.0, r.item.1, r.item.2).Some?
      && !GetChunk(w, r.item.0, r.item.1, r.item.2).value.IsEmpty()
    decreases |cs|
  {
    if cs != [] {
      var prefix := cs[..|cs| - 1];
      var c := cs[|cs| - 1];
      MeshRequestsExactly(w, ao, prefix, r);
      MeshedAllKeepsBlocks(w, ao, prefix, c.0, c.1, c.2);
      assert cs == prefix + [c];
    }
  }

  // ---------------------------------------------------------------------
  // The change-list
  // ---------------------------------------------------------------------

  /** An entry of a chunk's dirty list: (priority, local x, y, z). */
  type DirtyBlock = (int, int, int, int)

  /** Neighbour `k` of the 27 around change `ch`: the chunk that owns it and
      the dirty-list entry it contributes there. */
  function Touch(ch: Change, k: int): (r: (Cell3, DirtyBlock))
    requires 0 <= k < 27
    ensures r.1.0 == ch.0 && InChunk(r.1.1, r.1.2, r.1.3)
  {
    var d := CubeOffset(k);
    var t := GetChunkCoords(ch.2 + d.0, ch.3 + d.1, ch.4 + d.2);
    ((t.0, t.1, t.2), (ch.0, t.3, t.4, t.5))
  }

  /** Some change of `changes` puts `d` in the dirty list of chunk `key`. */
  ghost predicate Contributes(changes: set<Change>, key: Cell3, d: DirtyBlock) {
    exists ch, k | ch in changes && 0 <= k < 27 :: Touch(ch, k) == (key, d)
  }

  /** `groups` holds, per chunk, exactly the entries the changes contribute
      to it, and lists no chunk without one. */
  ghost predicate Grouped(groups: map<Cell3, seq<DirtyBlock>>, changes: set<Change>) {
    && (forall key | key in groups :: groups[key] != [])
    && (forall key, d :: key in groups && d in groups[key] <==> Contributes(changes, key, d))
  }

  /** Every block within one step of an edit, diagonals included, is listed
      for recompute in the chunk that owns it, with the edit's priority. */
  lemma GroupedCoversNeighbours(groups: map<Cell3, seq<DirtyBlock>>, changes: set<Change>, ch: Change,
                                dx: int, dy: int, dz: int)
    requires Grouped(groups, changes) && ch in changes
    requires -1 <= dx <= 1 && -1 <= dy <= 1 && -1 <= dz <= 1
    ensures var t := GetChunkCoords(ch.2 + dx, ch.3 + dy, ch.4 + dz);
      (t.0, t.1, t.2) in groups && (ch.0, t.3, t.4, t.5) in groups[(t.0, t.1, t.2)]
  {
    var k := 9 * (dx + 1) + 3 * (dy + 1) + (dz + 1);
    assert CubeOffset(k) == (dx, dy, dz);
    var (key, d) := Touch(ch, k);
    assert Contributes(changes, key, d);
  }

  /** Every listed entry is the local position of a block within one step
      of some edit, in the chunk that owns that block. */
  lemma GroupedEntriesAreNeighbours(groups: map<Cell3, seq<DirtyBlock>>, changes: set<Change>,
                                    key: Cell3, d: DirtyBlock)
    requires Grouped(groups, changes) && key in groups && d in groups[key]
    ensures var g := GetGlobalCoords((key.0, key.1, key.2, d.1, d.2, d.3));
      exists ch | ch in changes ::
        d.0 == ch.0 && -1 <= g.0 - ch.2 <= 1 && -1 <= g.1 - ch.3 <= 1 && -1 <= g.2 - ch.4 <= 1
  {
    var ch, k :| ch in changes && 0 <= k < 27 && Touch(ch, k) == (key, d);
    var o := CubeOffset(k);
    GlobalRoundTrip(ch.2 + o.0, ch.3 + o.1, ch.4 + o.2);
  }

  /** The entries of a dirty list that carry the highest priority: the
      maximum, or 0 for an empty list. */
  function MaxPriority(dirty: seq<DirtyBlock>): (r: int)
    ensures dirty == [] ==> r == 0
    ensures forall i | 0 <= i < |dirty| :: dirty[i].0 <= r
    ensures dirty != [] ==> exists i | 0 <= i < |dirty| :: dirty[i].0 == r
    decreases |dirty|
  {
    if dirty == [] then 0
    else if |dirty| == 1 then dirty[0].0
    else
      var m := MaxPriority(dirty[..|dirty| - 1]);
      var p := dirty[|dirty| - 1].0;
      if p > m then p else m
  }

  datatype WorkerPool = WorldGeneration | PlayerInteraction

  /** The pool a dirty list's task runs on: the world-generation pool when
      its highest priority is 0, the player-interaction pool otherwise. */
  function PoolFor(dirty: seq<DirtyBlock>): WorkerPool {
    if MaxPriority(dirty) == 0 then WorldGeneration else PlayerInteraction
  }

  /** With the priorities edits carry (0 or more), a group goes to the
      player-interaction pool exactly when one of its entries has priority
      1 or more, so an interactive edit never waits behind generation. */
  lemma InteractiveEditsSkipGeneration(dirty: seq<DirtyBlock>)
    requires forall i | 0 <= i < |dirty| :: dirty[i].0 >= 0
    ensures PoolFor(dirty) == PlayerInteraction <==> exists i | 0 <= i < |dirty| :: dirty[i].0 >= 1
  {
  }

  /** The local positions of a dirty list. */
  function Positions(dirty: seq<DirtyBlock>): (ps: seq<(int, int, int)>)
    ensures |ps| == |dirty|
    ensures forall i | 0 <= i < |dirty| :: ps[i] == (dirty[i].1, dirty[i].2, dirty[i].3)
  {
    seq(|dirty|, i requires 0 <= i < |dirty| => (dirty[i].1, dirty[i].2, dirty[i].3))
  }

  /** Adds the 27 entries change `ch` contributes to `groups`. */
  method AddNeighbourhood(groups: map<Cell3, seq<DirtyBlock>>, ghost done: set<Change>, ch: Change)
    returns (groups': map<Cell3, seq<DirtyBlock>>)
    requires Grouped(groups, done)
    ensures Grouped(groups', done + {ch})
  {
    groups' := groups;
    for k := 0 to 27
      invariant forall key | key in groups' :: groups'[key] != []
      invariant forall key, d :: key in groups' && d in groups'[key] <==>
        Contributes(done, key, d) || exists k' | 0 <= k' < k :: Touch(ch, k') == (key, d)
    {
      var (key, d) := Touch(ch, k);
      var listed := if key in groups' then groups'[key] else [];
      groups' := groups'[key := listed + [d]];
    }
    forall key, d | Contributes(done + {ch}, key, d)
      ensures Contributes(done, key, d) || exists k' | 0 <= k' < 27 :: Touch(ch, k') == (key, d)
    {
      var c, k :| c in done + {ch} && 0 <= k < 27 && Touch(c, k) == (key, d);
    }
  }

  /** Groups the neighbours of every change, taking the changes in the
      set's own order (any order). */
  method GroupChanges(changes: set<Change>) returns (groups: map<Cell3, seq<DirtyBlock>>)
    ensures Grouped(groups, changes)
  {
    groups := map[];
    var rest := changes;
    ghost var done: set<Change> := {};
    while rest != {}
      invariant rest + done == changes
      invariant Grouped(groups, done)
      decreases rest
    {
      var ch :| ch in rest;
      groups := AddNeighbourhood(groups, done, ch);
      rest := rest - {ch};
      done := done + {ch};
    }
  }

  // ---------------------------------------------------------------------
  // The system
  // ---------------------------------------------------------------------

  class ChunkLoader {
    /** The shared storage. */
    const cm: ChunkManager
    /** Evicted columns waiting to be reused. */
    var columnPool: seq<Column>
    /** The contents of the upload priority queue, in no particular order. */
    var uploadQueue: seq<UploadRequest>
    /** Upload requests sent by worker tasks and not yet received. */
    var pendingUploads: seq<UploadRequest>
    /** No expansion cycle is in flight. */
    var expandChunks: bool

    ghost predicate Valid()
      reads this, cm
    {
      cm.Valid() && forall i | 0 <= i < |columnPool| :: columnPool[i].Valid()
    }

    /** A fresh system over `cm`: the pool is filled with
        `(2 * (renderDistance + 2) + 1)^2` new columns, enough for every
        column within range. */
    constructor (cm: ChunkManager, renderDistance: nat)
      requires cm.Valid()
      ensures Valid() && this.cm == cm
      ensures |columnPool| == (2 * (renderDistance + 2) + 1) * (2 * (renderDistance + 2) + 1)
      ensures forall i | 0 <= i < |columnPool| :: columnPool[i] == NewColumn()
      ensures uploadQueue == [] && pendingUploads == [] && expandChunks
    {
      this.cm := cm;
      var width := 2 * (renderDistance + 2) + 1;
      columnPool := seq(width * width, _ => NewColumn());
      uploadQueue := [];
      pendingUploads := [];
      expandChunks := true;
    }

    /** `BinaryHeap::pop`: removes and returns a request of greatest
        priority, or none from an empty queue. */
    method PopUpload() returns (r: Option<UploadRequest>)
      modifies this
      ensures columnPool == old(columnPool) && pendingUploads == old(pendingUploads) && expandChunks == old(expandChunks)
      ensures r.None? <==> old(uploadQueue) == []
      ensures r.None? ==> uploadQueue == old(uploadQueue)
      ensures r.Some? ==> r.value in old(uploadQueue) && multiset(uploadQueue) + multiset{r.value} == multiset(old(uploadQueue))
      ensures r.Some? ==> |uploadQueue| == |old(uploadQueue)| - 1
      ensures r.Some? ==> forall q | q in old(uploadQueue) :: q.priority <= r.value.priority
    {
      if uploadQueue == [] {
        return None;
      }
      var m := MaxIndex(uploadQueue);
      r := Some(uploadQueue[m]);
      assert uploadQueue == uploadQueue[..m] + [uploadQueue[m]] + uploadQueue[m + 1..];
      uploadQueue := uploadQueue[..m] + uploadQueue[m + 1..];
    }

    /** Chunk uploading: received requests join the queue, then up to
        `uploadsPerFrame` requests are popped, highest priority first, and
        each loaded chunk they name is marked uploaded. */
    method UploadChunks(uploadsPerFrame: nat) returns (popped: seq<UploadRequest>)
      requires Valid()
      modifies this, cm
      ensures Valid() && cm.blockChangelist == old(cm.blockChangelist)
      ensures columnPool == old(columnPool) && expandChunks == old(expandChunks) && pendingUploads == []
      ensures |popped| == Min(uploadsPerFrame, |old(uploadQueue)| + |old(pendingUploads)|)
      ensures multiset(uploadQueue) + multiset(popped) == multiset(old(uploadQueue)) + multiset(old(pendingUploads))
      ensures forall i, j | 0 <= i < j < |popped| :: popped[i].priority >= popped[j].priority
      ensures forall i, q | 0 <= i < |popped| && q in uploadQueue :: q.priority <= popped[i].priority
      ensures cm.loadedChunkColumns == MarkUploaded(old(cm.loadedChunkColumns), popped)
    {
      ghost var w := cm.loadedChunkColumns;
      ghost var total := |uploadQueue| + |pendingUploads|;
      uploadQueue := uploadQueue + pendingUploads;
      pendingUploads := [];
      popped := [];
      var world := cm.loadedChunkColumns;
      for n := 0 to uploadsPerFrame
        modifies this
        invariant columnPool == old(columnPool) && expandChunks == old(expandChunks) && pendingUploads == []
        invariant |popped| == Min(n, total) && |popped| + |uploadQueue| == total
        invariant multiset(uploadQueue) + multiset(popped) == multiset(old(uploadQueue)) + multiset(old(pendingUploads))
        invariant PoppedInOrder(popped, uploadQueue)
        invariant WorldValid(world) && world == MarkUploaded(w, popped)
      {
        world, popped := UploadNext(w, world, popped);
      }
      cm.loadedChunkColumns := world;
    }

    /** One iteration of the upload loop: pops a request, if any, and marks
        the chunk it names as uploaded in `world`. */
    method UploadNext(ghost w: World, world: World, popped: seq<UploadRequest>)
      returns (world': World, popped': seq<UploadRequest>)
      requires WorldValid(w) && world == MarkUploaded(w, popped) && PoppedInOrder(popped, uploadQueue)
      modifies this
      ensures columnPool == old(columnPool) && expandChunks == old(expandChunks) && pendingUploads == old(pendingUploads)
      ensures |popped'| == |popped| + (if old(uploadQueue) == [] then 0 else 1)
      ensures |popped'| + |uploadQueue| == |popped| + |old(uploadQueue)|
      ensures multiset(uploadQueue) + multiset(popped') == multiset(old(uploadQueue)) + multiset(popped)
      ensures PoppedInOrder(popped', uploadQueue)
      ensures WorldValid(world') && world' == MarkUploaded(w, popped')
    {
      ghost var queue := uploadQueue;
      var r := PopUpload();
      world', popped' := world, popped;
      if r.Some? {
        PopKeepsOrder(popped, queue, uploadQueue, r.value);
        popped' := popped + [r.value];
        MarkUploadedSnoc(w, popped, r.value);
        world' := MarkOneUploaded(world, r.value.item);
      }
    }

    /** Eviction, which runs only while no expansion cycle is in flight:
        out-of-range chunks are unloaded from the GPU, and out-of-range
        columns are removed from the map and pushed onto the pool, in the
        order `removed` lists them. */
    method EvictDistant(viewer: Cell3, renderDistance: int) returns (removed: seq<(int, int)>)
      requires Valid()
      modifies this`columnPool, cm`loadedChunkColumns
      ensures Valid()
      ensures !expandChunks ==>
        removed == [] && cm.loadedChunkColumns == old(cm.loadedChunkColumns) && columnPool == old(columnPool)
      ensures expandChunks ==> cm.loadedChunkColumns == Evicted(old(cm.loadedChunkColumns), viewer, renderDistance)
      ensures Distinct(removed)
      ensures expandChunks ==> forall xz :: xz in removed <==>
        xz in old(cm.loadedChunkColumns) && ColumnOutOfRange(xz, viewer, renderDistance)
      ensures |columnPool| == |old(columnPool)| + |removed| && columnPool[..|old(columnPool)|] == old(columnPool)
      ensures forall i | 0 <= i < |removed| ::
        removed[i] in old(cm.loadedChunkColumns) &&
        columnPool[|old(columnPool)| + i] == UnloadFarChunks(old(cm.loadedChunkColumns)[removed[i]], removed[i], viewer, renderDistance)
    {
      if !expandChunks {
        return [];
      }
      ghost var w := cm.loadedChunkColumns;
      var unloaded, toRemove := UnloadAll(cm.loadedChunkColumns, viewer, renderDistance);
      cm.loadedChunkColumns := unloaded;
      RemoveColumns(toRemove);
      removed := toRemove;
      RemoveEachDistinct(unloaded, toRemove);
      EvictedByPasses(w, viewer, renderDistance, unloaded, toRemove, cm.loadedChunkColumns);
    }

    /** The second pass of eviction: each listed column is removed from the
        map and pushed onto the pool. */
    method RemoveColumns(toRemove: seq<(int, int)>)
      requires Valid()
      modifies this`columnPool, cm`loadedChunkColumns
      ensures Valid()
      ensures cm.loadedChunkColumns == RemoveEach(old(cm.loadedChunkColumns), toRemove).0
      ensures columnPool == old(columnPool) + RemoveEach(old(cm.loadedChunkColumns), toRemove).1
    {
      ghost var w := cm.loadedChunkColumns;
      ghost var pool := columnPool;
      for i := 0 to |toRemove|
        invariant Valid()
        invariant cm.loadedChunkColumns == RemoveEach(w, toRemove[..i]).0
        invariant columnPool == pool + RemoveEach(w, toRemove[..i]).1
      {
        RemoveEachSnoc(w, toRemove, i);
        var column := cm.RemoveChunkColumn(toRemove[i]);
        if column.Some? {
          columnPool := columnPool + [column.value];
        }
      }
      assert toRemove[..|toRemove|] == toRemove;
    }

    /** Servicing column requests, until the time cap: each request takes
        the last column of the pool, reset, or a new column when the pool is
        empty; either way the column handed out is a fresh one. */
    method ServiceColumnRequests(requests: nat, capReached: seq<bool>) returns (columns: seq<Column>)
      requires Valid()
      modifies this
      ensures Valid()
      ensures uploadQueue == old(uploadQueue) && pendingUploads == old(pendingUploads) && expandChunks == old(expandChunks)
      ensures |columns| == Served(requests, capReached)
      ensures forall i | 0 <= i < |columns| :: columns[i] == NewColumn()
      ensures columnPool == old(columnPool)[..|old(columnPool)| - Min(|columns|, |old(columnPool)|)]
    {
      columns := [];
      var i := 0;
      while i < requests
        invariant Valid() && i <= requests
        invariant uploadQueue == old(uploadQueue) && pendingUploads == old(pendingUploads) && expandChunks == old(expandChunks)
        invariant |columns| == i && Served(requests, capReached) == ServedFrom(i, requests, capReached)
        invariant forall j | 0 <= j < |columns| :: columns[j] == NewColumn()
        invariant columnPool == old(columnPool)[..|old(columnPool)| - Min(i, |old(columnPool)|)]
        decreases requests - i
      {
        var column;
        if columnPool != [] {
          column := ResetColumn(columnPool[|columnPool| - 1]);
          columnPool := columnPool[..|columnPool| - 1];
        } else {
          column := NewColumn();
        }
        columns := columns + [column];
        i := i + 1;
        if i - 1 < |capReached| && capReached[i - 1] {
          break;
        }
      }
    }

    /** The meshing task for chunk c of an expansion cycle. */
    method MeshChunk(c: Cell3) returns (request: seq<UploadRequest>)
      requires cm.Valid()
      modifies cm
      ensures cm.Valid() && cm.blockChangelist == old(cm.blockChangelist)
      ensures cm.loadedChunkColumns == Meshed(old(cm.loadedChunkColumns), cm.aoOfBlock, c)
      ensures request == MeshRequest(old(cm.loadedChunkColumns), c)
    {
      var (x, y, z) := c;
      var w := cm.loadedChunkColumns;
      request := [];
      match GetChunk(w, x, y, z)
      case None =>
      case Some(chunk) =>
        if chunk.IsEmpty() {
          cm.loadedChunkColumns := WithChunk(w, x, y, z, chunk.(isGenerated := true, isUploadedToGpu := true));
        } else {
          cm.UpdateBlocks(x, y, z, AllBlocks());
          var updated := cm.loadedChunkColumns[(x, z)].chunks[y];
          cm.loadedChunkColumns := WithChunk(cm.loadedChunkColumns, x, y, z, updated.(isGenerated := true));
          request := [PrioritizedItem((x, y, z), 0)];
        }
    }

    /** Meshing the chunks an expansion cycle discovered, one task after
        another; the tasks' upload requests are sent in task order. */
    method MeshChunks(cs: seq<Cell3>)
      requires Valid()
      modifies this, cm
      ensures Valid() && cm.blockChangelist == old(cm.blockChangelist)
      ensures columnPool == old(columnPool) && uploadQueue == old(uploadQueue) && expandChunks == old(expandChunks)
      ensures cm.loadedChunkColumns == MeshedAll(old(cm.loadedChunkColumns), cm.aoOfBlock, cs)
      ensures pendingUploads == old(pendingUploads) + MeshRequests(old(cm.loadedChunkColumns), cm.aoOfBlock, cs)
    {
      var w := cm.loadedChunkColumns;
      var sent := [];
      for i := 0 to |cs|
        modifies cm
        invariant cm.Valid() && cm.blockChangelist == old(cm.blockChangelist)
        invariant cm.loadedChunkColumns == MeshedAll(w, cm.aoOfBlock, cs[..i])
        invariant sent == MeshRequests(w, cm.aoOfBlock, cs[..i])
      {
        assert cs[..i + 1][..i] == cs[..i];
        var request := MeshChunk(cs[i]);
        sent := sent + request;
      }
      assert cs[..|cs|] == cs;
      pendingUploads := pendingUploads + sent;
    }

    /** Draining the change-list: the 27 neighbours of every entry are
        grouped by the chunk that owns them, and the list is cleared. */
    method DrainChangelist() returns (groups: map<Cell3, seq<DirtyBlock>>)
      requires Valid()
      modifies cm
      ensures Valid() && cm.blockChangelist == {} && cm.loadedChunkColumns == old(cm.loadedChunkColumns)
      ensures Grouped(groups, old(cm.blockChangelist))
    {
      groups := GroupChanges(cm.blockChangelist);
      cm.blockChangelist := {};
    }

    /** The task for one group: recompute the listed blocks of chunk `key`
        and, if that chunk is uploaded, request its upload at the group's
        highest priority. `pool` is the pool the task is sent to. */
    method RemeshGroup(key: Cell3, dirty: seq<DirtyBlock>) returns (pool: WorkerPool)
      requires Valid() && AllInChunk(Positions(dirty))
      modifies this, cm
      ensures Valid() && cm.blockChangelist == old(cm.blockChangelist)
      ensures columnPool == old(columnPool) && uploadQueue == old(uploadQueue) && expandChunks == old(expandChunks)
      ensures pool == PoolFor(dirty)
      ensures cm.loadedChunkColumns == Remeshed(old(cm.loadedChunkColumns), cm.aoOfBlock, key, Positions(dirty))
      ensures pendingUploads == old(pendingUploads) +
        if ChunkUploaded(old(cm.loadedChunkColumns), key) then [PrioritizedItem(key, MaxPriority(dirty))] else []
    {
      pool := PoolFor(dirty);
      var (x, y, z) := key;
      match GetChunk(cm.loadedChunkColumns, x, y, z)
      case None =>
      case Some(chunk) =>
        cm.UpdateBlocks(x, y, z, Positions(dirty));
        if chunk.isUploadedToGpu {
          pendingUploads := pendingUploads + [PrioritizedItem(key, MaxPriority(dirty))];
        }
    }
  }

  /** Chunk c is loaded and uploaded. */
  predicate ChunkUploaded(w: World, c: Cell3)
    requires WorldValid(w)
  {
    match GetChunk(w, c.0, c.1, c.2)
    case Some(chunk) => chunk.isUploadedToGpu
    case None => false
  }

  /** A group built from the change-list can be handed to its task: all its
      positions lie inside a chunk. */
  lemma GroupPositionsInChunk(groups: map<Cell3, seq<DirtyBlock>>, changes: set<Change>, key: Cell3)
    requires Grouped(groups, changes) && key in groups
    ensures AllInChunk(Positions(groups[key]))
  {
    forall i | 0 <= i < |groups[key]|
      ensures InChunk(groups[key][i].1, groups[key][i].2, groups[key][i].3)
    {
      var d := groups[key][i];
      assert Contributes(changes, key, d);
    }
  }
}
