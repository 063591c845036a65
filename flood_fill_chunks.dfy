/**
 * The chunk search of the loading system: starting at the player's chunk,
 * it explores the cube of chunks within `distance` on all three axes round
 * by round (breadth first, six neighbours per step) and returns the chunks
 * of the first round that are inside the world's height and not yet
 * generated. Its columns must all be loaded: a chunk inside the world's
 * height whose column is missing makes the search panic.
 *
 * As for the column searches, round k inside the cube is the set of chunks
 * at Manhattan distance k, and the visited bit vector is kept as the set of
 * visited chunks (`CubeIndexInjective`).
 */
module ChunkFloodFill {
  import opened Wrappers
  import opened Chunks
  import opened ChunkManagement
  import opened ColumnFloodFill

  /** A chunk coordinate (x, y, z). */
  type Cell3 = (int, int, int)

  /** The cube of chunks within `distance` of `center` on every axis. */
  datatype Cube = Cube(center: Cell3, distance: int)
  {
    predicate Contains(c: Cell3) {
      && Abs(c.0 - center.0) <= distance
      && Abs(c.1 - center.1) <= distance
      && Abs(c.2 - center.2) <= distance
    }

    /** Manhattan distance from the centre: the round that reaches `c`. */
    function Dist(c: Cell3): nat {
      Abs(c.0 - center.0) + Abs(c.1 - center.1) + Abs(c.2 - center.2)
    }

    ghost predicate InDisk(c: Cell3, k: int) {
      Contains(c) && Dist(c) <= k
    }

    ghost predicate InRing(c: Cell3, k: int) {
      Contains(c) && Dist(c) == k
    }
  }

  /** Position of `c` in the visited bit vector of the cube: x-major, then
      y, then z, over a cube of side 2 * distance + 1. */
  function CubeIndex(a: Cube, c: Cell3): int {
    var m := 2 * a.distance + 1;
    m * m * (c.0 - a.center.0 + a.distance) + m * (c.1 - a.center.1 + a.distance) + (c.2 - a.center.2 + a.distance)
  }

  /** Every chunk of the cube has its own bit, inside the vector. */
  lemma CubeIndexInjective(a: Cube, c: Cell3, c': Cell3)
    requires a.distance >= 0 && a.Contains(c) && a.Contains(c')
    ensures 0 <= CubeIndex(a, c) < (2 * a.distance + 1) * (2 * a.distance + 1) * (2 * a.distance + 1)
    ensures CubeIndex(a, c) == CubeIndex(a, c') ==> c == c'
  {
    var m := 2 * a.distance + 1;
    var (p, q, r) := (c.0 - a.center.0 + a.distance, c.1 - a.center.1 + a.distance, c.2 - a.center.2 + a.distance);
    var (p', q', r') := (c'.0 - a.center.0 + a.distance, c'.1 - a.center.1 + a.distance, c'.2 - a.center.2 + a.distance);
    RowMajor(m, m, p, q, p', q');
    RowMajor(m * m, m, m * p + q, r, m * p' + q', r');
    Nested(m, p, q, r);
    Nested(m, p', q', r');
  }

  /** The cube index is a row-major index over rows that are themselves
      row-major indices. */
  lemma Nested(m: int, p: int, q: int, r: int)
    ensures m * m * p + m * q + r == m * (m * p + q) + r
    ensures m * (m * m) == m * m * m
  {
  }

  /** The six neighbours of a chunk in the order the search visits them:
      +x, -x, +z, -z, +y, -y. */
  function Step(c: Cell3, n: int): (r: Cell3)
    requires 0 <= n < 6
    ensures Abs(r.0 - c.0) + Abs(r.1 - c.1) + Abs(r.2 - c.2) == 1
  {
    var o := [(1, 0, 0), (-1, 0, 0), (0, 0, 1), (0, 0, -1), (0, 1, 0), (0, -1, 0)][n];
    (c.0 + o.0, c.1 + o.1, c.2 + o.2)
  }

  /** Every chunk of the cube but the centre is a neighbour of a chunk one
      round nearer. */
  lemma InwardStep(a: Cube, c: Cell3) returns (p: Cell3, n: int)
    requires a.Contains(c) && a.Dist(c) > 0
    ensures 0 <= n < 6 && Step(p, n) == c
    ensures a.Contains(p) && a.Dist(p) == a.Dist(c) - 1
  {
    if c.0 != a.center.0 {
      var v := Toward(c.0, a.center.0);
      p, n := (v, c.1, c.2), if v < c.0 then 0 else 1;
    } else if c.2 != a.center.2 {
      var v := Toward(c.2, a.center.2);
      p, n := (c.0, c.1, v), if v < c.2 then 2 else 3;
    } else {
      var v := Toward(c.1, a.center.1);
      p, n := (c.0, v, c.2), if v < c.1 then 4 else 5;
    }
  }

  /** One step from `v` toward `o` on one axis. */
  lemma Toward(v: int, o: int) returns (v': int)
    requires v != o
    ensures v' == v - 1 || v' == v + 1
    ensures Abs(v' - o) == Abs(v - o) - 1
  {
    v' := if v > o then v - 1 else v + 1;
  }

  /** A chunk at distance `a.Dist(c)` implies chunks at every smaller distance. */
  lemma {:induction false} Nearer(a: Cube, c: Cell3, k: int) returns (c': Cell3)
    requires a.Contains(c) && 0 <= k <= a.Dist(c)
    ensures a.InRing(c', k)
    decreases a.Dist(c)
  {
    if a.Dist(c) == k {
      c' := c;
    } else {
      var p, _ := InwardStep(a, c);
      c' := Nearer(a, p, k);
    }
  }

  /** When round k reaches no chunk, every chunk of the cube was reached
      before it. */
  lemma RoundsExhausted(a: Cube, k: int)
    requires k >= 0 && forall c :: !a.InRing(c, k)
    ensures forall c | a.Contains(c) :: a.Dist(c) < k
  {
    forall c | a.Contains(c)
      ensures a.Dist(c) < k
    {
      if a.Dist(c) >= k {
        var c' := Nearer(a, c, k);
        assert false;
      }
    }
  }

  /** A neighbour is one round further at most. */
  lemma StepDist(a: Cube, p: Cell3, n: int)
    requires 0 <= n < 6
    ensures a.Dist(Step(p, n)) <= a.Dist(p) + 1
  {
  }

  /** What holds part-way through round k + 1 (see `ColumnFloodFill.Expanding`). */
  ghost predicate Expanding(a: Cube, k: nat, ring0: seq<Cell3>, visited: set<Cell3>, ring: seq<Cell3>) {
    && (forall c :: c in visited <==> a.InDisk(c, k) || (c in ring && c !in ring0))
    && (forall c | c in visited :: a.InDisk(c, k + 1))
    && Distinct(ring) && (forall c | c in ring :: c in visited)
    && (forall c | c in ring0 :: c in ring)
    && (forall c | c in ring && c !in ring0 :: !a.InDisk(c, k))
  }

  /** Chunk `p` visits its six neighbours and marks and appends those inside
      the cube not yet visited. */
  method VisitNeighbours(a: Cube, ghost k: nat, ghost ring0: seq<Cell3>, p: Cell3, visited: set<Cell3>, ring: seq<Cell3>)
    returns (visited': set<Cell3>, ring': seq<Cell3>)
    requires a.InDisk(p, k) && Expanding(a, k, ring0, visited, ring)
    ensures Expanding(a, k, ring0, visited', ring') && visited <= visited'
    ensures forall n | 0 <= n < 6 && a.Contains(Step(p, n)) :: Step(p, n) in visited'
  {
    visited', ring' := visited, ring;
    for n := 0 to 6
      invariant Expanding(a, k, ring0, visited', ring') && visited <= visited'
      invariant forall n' | 0 <= n' < n && a.Contains(Step(p, n')) :: Step(p, n') in visited'
    {
      var c := Step(p, n);
      StepDist(a, p, n);
      if a.Contains(c) && c !in visited' {
        ring' := ring' + [c];
        visited' := visited' + {c};
      }
    }
  }

  /** One round of the search: the visited chunks grow from the first k
      rounds to the first k + 1, and exactly round k + 1 is appended to
      `ring`, each chunk once. */
  method ExpandRing(a: Cube, ghost k: nat, queue: seq<Cell3>, visited: set<Cell3>, ring: seq<Cell3>)
    returns (visited': set<Cell3>, ring': seq<Cell3>)
    requires forall c :: c in visited <==> a.InDisk(c, k)
    requires forall c | c in queue :: a.InDisk(c, k)
    requires forall c | a.InRing(c, k) :: c in queue
    requires Distinct(ring) && forall c | c in ring :: c in visited
    ensures forall c :: c in visited' <==> a.InDisk(c, k + 1)
    ensures Distinct(ring') && forall c | c in ring' :: c in visited'
    ensures forall c :: c in ring' <==> c in ring || a.InRing(c, k + 1)
  {
    visited', ring' := visited, ring;
    for i := 0 to |queue|
      invariant Expanding(a, k, ring, visited', ring')
      invariant forall j, n | 0 <= j < i && 0 <= n < 6 && a.Contains(Step(queue[j], n)) :: Step(queue[j], n) in visited'
    {
      visited', ring' := VisitNeighbours(a, k, ring, queue[i], visited', ring');
    }
    forall c | a.InRing(c, k + 1)
      ensures c in visited'
    {
      var p, n := InwardStep(a, c);
      assert p in queue;
      var j :| 0 <= j < |queue| && queue[j] == p;
    }
  }

  // ---------------------------------------------------------------------
  // The search
  // ---------------------------------------------------------------------

  /** The search's test on a chunk: not generated, or not uploaded. */
  predicate Wanted(chunk: Chunk) {
    !chunk.isGenerated || !chunk.isUploadedToGpu
  }

  /** A chunk inside the world's height whose column is not loaded: looking
      it up panics. */
  predicate Missing(w: World, c: Cell3) {
    0 <= c.1 < COLUMN_HEIGHT && (c.0, c.2) !in w
  }

  /** A chunk inside the world's height, loaded and not yet generated. */
  predicate Ungenerated(w: World, c: Cell3)
    requires WorldValid(w)
  {
    0 <= c.1 < COLUMN_HEIGHT && GetChunk(w, c.0, c.1, c.2).Some? && !GetChunk(w, c.0, c.1, c.2).value.isGenerated
  }

  /** A chunk the scan of a round passes over without effect. */
  ghost predicate Settled(w: World, c: Cell3)
    requires WorldValid(w)
  {
    !Missing(w, c) && !Ungenerated(w, c)
  }

  /** The player's own chunk is loaded and wanted: it is returned alone. */
  predicate CentreWanted(w: World, c: Cell3)
    requires WorldValid(w)
  {
    GetChunk(w, c.0, c.1, c.2).Some? && Wanted(GetChunk(w, c.0, c.1, c.2).value)
  }

  /** The cells of `s` that are ungenerated chunks, in order. */
  function UngeneratedOf(w: World, s: seq<Cell3>): (r: seq<Cell3>)
    requires WorldValid(w)
    ensures forall c :: c in r <==> c in s && Ungenerated(w, c)
    ensures Distinct(s) ==> Distinct(r)
  {
    if s == [] then []
    else
      var (r0, c) := (UngeneratedOf(w, s[..|s| - 1]), s[|s| - 1]);
      assert Distinct(s) ==> c !in s[..|s| - 1];
      if Ungenerated(w, c) then r0 + [c] else r0
  }

  /** Level k of the search: the centre alone, then rounds 0 and 1
      together, then every later round on its own. */
  ghost predicate Level(a: Cube, k: int, c: Cell3) {
    a.Contains(c) && if k <= 1 then a.Dist(c) <= k else a.Dist(c) == k
  }

  /** Every chunk of the cube nearer than level `L` is settled. */
  ghost predicate SettledBefore(w: World, a: Cube, L: int)
    requires WorldValid(w)
  {
    forall c | a.Contains(c) && a.Dist(c) < L && !Level(a, L, c) :: Settled(w, c)
  }

  /** `r` holds exactly the ungenerated chunks of level `L`, no chunk of
      that level is missing, and every nearer chunk is settled. */
  ghost predicate NearestUngenerated(w: World, a: Cube, L: int, r: seq<Cell3>)
    requires WorldValid(w)
  {
    && 1 <= L
    && (forall c :: c in r <==> Level(a, L, c) && Ungenerated(w, c))
    && (forall c | Level(a, L, c) :: !Missing(w, c))
    && SettledBefore(w, a, L)
  }

  /** Level `L` is the first one holding a missing chunk. */
  ghost predicate PanicsAt(w: World, a: Cube, L: int)
    requires WorldValid(w)
  {
    && 1 <= L
    && (exists c :: Level(a, L, c) && Missing(w, c))
    && SettledBefore(w, a, L)
  }

  /** The scan of one round: the ungenerated chunks of `ring`, in order, or
      a panic at a chunk inside the world's height whose column is not
      loaded. */
  method ScanRing(w: World, ring: seq<Cell3>) returns (r: Outcome<seq<Cell3>>)
    requires WorldValid(w)
    ensures r.Panic? <==> exists c | c in ring :: Missing(w, c)
    ensures r.Done? ==> r.value == UngeneratedOf(w, ring)
  {
    var ungenerated := [];
    for i := 0 to |ring|
      invariant ungenerated == UngeneratedOf(w, ring[..i])
      invariant forall j | 0 <= j < i :: !Missing(w, ring[j])
    {
      assert ring[..i + 1][..i] == ring[..i];
      var (x, y, z) := ring[i];
      if 0 <= y && y < COLUMN_HEIGHT {
        var chunk := GetChunk(w, x, y, z);
        if chunk.None? {
          assert Missing(w, ring[i]);
          return Panic;
        }
        if !chunk.value.isGenerated && Wanted(chunk.value) {
          ungenerated := ungenerated + [ring[i]];
        }
      }
    }
    assert ring[..|ring|] == ring;
    return Done(ungenerated);
  }

  /** `flood_fill_chunks`: the chunks the world generator should generate
      next, nearest first; the player's own chunk alone when it is loaded
      and either not generated or not uploaded. `Panic` stands for the
      `unwrap` of a missing column. */
  method FloodFillChunks(w: World, x: int, y: int, z: int, distance: int) returns (r: Outcome<seq<Cell3>>)
    requires WorldValid(w) && distance >= 0
    ensures CentreWanted(w, (x, y, z)) ==> r == Done([(x, y, z)])
    ensures r.Done? ==> Distinct(r.value)
    ensures r.Done? ==> forall c | c in r.value :: Cube((x, y, z), distance).Contains(c)
    ensures r == Done([]) <==>
      !CentreWanted(w, (x, y, z)) && forall c | Cube((x, y, z), distance).Contains(c) :: Settled(w, c)
    ensures r.Done? && r.value != [] && !CentreWanted(w, (x, y, z)) ==>
      exists L :: NearestUngenerated(w, Cube((x, y, z), distance), L, r.value)
    ensures r.Panic? ==> !CentreWanted(w, (x, y, z)) && exists L :: PanicsAt(w, Cube((x, y, z), distance), L)
  {
    var a := Cube((x, y, z), distance);
    var queue := [(x, y, z)];
    var ring := [(x, y, z)];
    var visited := {(x, y, z)};
    var centre := GetChunk(w, x, y, z);
    if centre.Some? && Wanted(centre.value) {
      return Done(ring);
    }
    if centre.Some? && !centre.value.isGenerated {
      return Done(ring);
    }
    ghost var k := 0;
    while queue != []
      invariant 0 <= k <= 3 * distance + 2
      invariant forall c :: c in visited <==> a.InDisk(c, k)
      invariant forall c :: c in queue <==> Level(a, k, c)
      invariant k == 0 ==> ring == [(x, y, z)]
      invariant k >= 1 ==> ring == [] && forall c | a.InDisk(c, k) :: Settled(w, c)
      decreases 3 * distance + 2 - k
    {
      assert Level(a, k, queue[0]);
      visited, ring := ExpandRing(a, k, queue, visited, ring);
      k := k + 1;
      assert forall c :: c in ring <==> Level(a, k, c);
      var scan := ScanRing(w, ring);
      if scan.Panic? {
        ghost var c :| c in ring && Missing(w, c);
        assert PanicsAt(w, a, k);
        return Panic;
      }
      var ungenerated := scan.value;
      assert forall c | Level(a, k, c) :: !Missing(w, c);
      if ungenerated != [] {
        assert NearestUngenerated(w, a, k, ungenerated);
        assert ungenerated[0] in ungenerated;
        return Done(ungenerated);
      }
      queue := ring;
      ring := [];
    }
    assert !Level(a, k, (x, y, z));
    assert forall c :: a.InRing(c, k) ==> Level(a, k, c);
    RoundsExhausted(a, k);
    r := Done([]);
  }
}
