/**
 * The two column searches of the loading system: starting at the player's
 * column, they explore the square of columns within `distance` on both
 * axes ring by ring (breadth first, four neighbours per step) and return
 * the qualifying columns of the first ring that has any: columns with no
 * entry in the column map, or loaded columns still without foliage.
 *
 * Breadth-first rounds inside the square reach exactly the columns at
 * Manhattan distance k in round k, so the rings are described by that
 * distance. The visited bit vector, indexed by `MatrixIndex`, is kept as
 * the set of visited columns; `MatrixIndexInjective` is what makes the two
 * interchangeable.
 */
module ColumnFloodFill {
  import opened Chunks
  import opened ChunkManagement

  /** A horizontal chunk coordinate (x, z). */
  type Cell = (int, int)

  function Abs(v: int): (r: nat)
    ensures r == v || r == -v
  {
    if v < 0 then -v else v
  }

  /** No element occurs twice. */
  ghost predicate Distinct<T>(s: seq<T>) {
    forall i, j | 0 <= i < j < |s| :: s[i] != s[j]
  }

  /** The square of cells within `distance` of `center` on both axes. */
  datatype Area = Area(center: Cell, distance: int)
  {
    predicate Contains(c: Cell) {
      Abs(c.0 - center.0) <= distance && Abs(c.1 - center.1) <= distance
    }

    /** Manhattan distance from the centre: the breadth-first round in
        which the search reaches `c`. */
    function Dist(c: Cell): nat {
      Abs(c.0 - center.0) + Abs(c.1 - center.1)
    }

    /** Cells of the square reached in rounds 0 to k. */
    ghost predicate InDisk(c: Cell, k: int) {
      Contains(c) && Dist(c) <= k
    }

    /** Cells of the square first reached in round k. */
    ghost predicate InRing(c: Cell, k: int) {
      Contains(c) && Dist(c) == k
    }
  }

  /** Position of `c` in the visited bit vector of the square: row-major
      over a matrix of width 2 * distance + 1. */
  function MatrixIndex(a: Area, c: Cell): int {
    (2 * a.distance + 1) * (c.0 - a.center.0 + a.distance) + (c.1 - a.center.1 + a.distance)
  }

  /** Every cell of the square has its own bit, inside the vector. */
  lemma MatrixIndexInjective(a: Area, c: Cell, c': Cell)
    requires a.distance >= 0 && a.Contains(c) && a.Contains(c')
    ensures 0 <= MatrixIndex(a, c) < (2 * a.distance + 1) * (2 * a.distance + 1)
    ensures MatrixIndex(a, c) == MatrixIndex(a, c') ==> c == c'
  {
    var m := 2 * a.distance + 1;
    var (r, s) := (c.0 - a.center.0 + a.distance, c.1 - a.center.1 + a.distance);
    var (r', s') := (c'.0 - a.center.0 + a.distance, c'.1 - a.center.1 + a.distance);
    RowMajor(m, m, r, s, r', s');
  }

  /** Row-major positions in a matrix of `n` rows and width `m` are
      distinct and in range. */
  lemma RowMajor(n: int, m: int, r: int, s: int, r': int, s': int)
    requires 0 <= r < n && 0 <= r' < n && 0 <= s < m && 0 <= s' < m
    ensures 0 <= m * r + s < m * n && 0 <= m * r' + s' < m * n
    ensures m * r + s == m * r' + s' ==> r == r' && s == s'
  {
    MulMono(m, r, n - 1);
    MulMono(m, r', n - 1);
    if r < r' {
      MulMono(m, r + 1, r');
    } else if r' < r {
      MulMono(m, r' + 1, r);
    }
  }

  lemma MulMono(m: int, u: int, v: int)
    requires 0 <= m && u <= v
    ensures m * u <= m * v
  {
    assert m * v - m * u == m * (v - u);
  }

  /** The four neighbours of a cell in the order the search visits them:
      +x, -x, +z, -z. */
  function Step(c: Cell, n: int): (r: Cell)
    requires 0 <= n < 4
    ensures Abs(r.0 - c.0) + Abs(r.1 - c.1) == 1
  {
    var o := [(1, 0), (-1, 0), (0, 1), (0, -1)][n];
    (c.0 + o.0, c.1 + o.1)
  }

  /** Every cell of the square but the centre is a neighbour of a cell one
      round nearer. */
  lemma InwardStep(a: Area, c: Cell) returns (p: Cell, n: int)
    requires a.Contains(c) && a.Dist(c) > 0
    ensures 0 <= n < 4 && Step(p, n) == c
    ensures a.Contains(p) && a.Dist(p) == a.Dist(c) - 1
  {
    if c.0 > a.center.0 {
      p, n := (c.0 - 1, c.1), 0;
    } else if c.0 < a.center.0 {
      p, n := (c.0 + 1, c.1), 1;
    } else if c.1 > a.center.1 {
      p, n := (c.0, c.1 - 1), 2;
    } else {
      p, n := (c.0, c.1 + 1), 3;
    }
  }

  /** The rounds are not skipped: a cell at distance `dc` implies cells at
      every distance up to `dc`. */
  lemma {:induction false} Nearer(a: Area, c: Cell, k: int) returns (c': Cell)
    requires a.Contains(c) && 0 <= k <= a.Dist(c)
    ensures a.InRing(c', k)
    decreases a.Dist(c)
  {
    if a.Dist(c) == k {
      c' := c;
    } else {
      var p, _ := InwardStep(a, c);
      c' := Nearer(a, p, k);
    }
  }

  /** A neighbour is one round further at most. */
  lemma StepDist(a: Area, p: Cell, n: int)
    requires 0 <= n < 4
    ensures a.Dist(Step(p, n)) <= a.Dist(p) + 1
  {
  }

  /** What holds part-way through round k + 1: the visited cells are the
      first k rounds plus the cells appended to `ring` since `ring0`, each
      once, all of them in round k + 1. */
  ghost predicate Expanding(a: Area, k: nat, ring0: seq<Cell>, visited: set<Cell>, ring: seq<Cell>) {
    && (forall c :: c in visited <==> a.InDisk(c, k) || (c in ring && c !in ring0))
    && (forall c | c in visited :: a.InDisk(c, k + 1))
    && Distinct(ring) && (forall c | c in ring :: c in visited)
    && (forall c | c in ring0 :: c in ring)
    && (forall c | c in ring && c !in ring0 :: !a.InDisk(c, k))
  }

  /** The inner loop of a round: cell `p` visits its four neighbours and
      marks and appends those inside the square not yet visited. */
  method VisitNeighbours(a: Area, ghost k: nat, ghost ring0: seq<Cell>, p: Cell, visited: set<Cell>, ring: seq<Cell>)
    returns (visited': set<Cell>, ring': seq<Cell>)
    requires a.InDisk(p, k) && Expanding(a, k, ring0, visited, ring)
    ensures Expanding(a, k, ring0, visited', ring') && visited <= visited'
    ensures forall n | 0 <= n < 4 && a.Contains(Step(p, n)) :: Step(p, n) in visited'
  {
    visited', ring' := visited, ring;
    for n := 0 to 4
      invariant Expanding(a, k, ring0, visited', ring') && visited <= visited'
      invariant forall n' | 0 <= n' < n && a.Contains(Step(p, n')) :: Step(p, n') in visited'
    {
      var c := Step(p, n);
      StepDist(a, p, n);
      if a.Contains(c) && c !in visited' {
        ring' := ring' + [c];
        visited' := visited' + {c};
      }
    }
  }

  /** One round of the search: every queued cell visits its unvisited
      neighbours inside the square, appending them to `ring` and marking
      them. When the visited cells are the first k rounds and the queue
      holds round k, the visited cells become the first k + 1 rounds and
      exactly round k + 1 is appended, each cell once. */
  method ExpandRing(a: Area, ghost k: nat, queue: seq<Cell>, visited: set<Cell>, ring: seq<Cell>)
    returns (visited': set<Cell>, ring': seq<Cell>)
    requires forall c :: c in visited <==> a.InDisk(c, k)
    requires forall c | c in queue :: a.InDisk(c, k)
    requires forall c | a.InRing(c, k) :: c in queue
    requires Distinct(ring) && forall c | c in ring :: c in visited
    ensures forall c :: c in visited' <==> a.InDisk(c, k + 1)
    ensures Distinct(ring') && forall c | c in ring' :: c in visited'
    ensures forall c :: c in ring' <==> c in ring || a.InRing(c, k + 1)
  {
    visited', ring' := visited, ring;
    for i := 0 to |queue|
      invariant Expanding(a, k, ring, visited', ring')
      invariant forall j, n | 0 <= j < i && 0 <= n < 4 && a.Contains(Step(queue[j], n)) :: Step(queue[j], n) in visited'
    {
      visited', ring' := VisitNeighbours(a, k, ring, queue[i], visited', ring');
    }
    forall c | a.InRing(c, k + 1)
      ensures c in visited'
    {
      var p, n := InwardStep(a, c);
      assert p in queue;
      var j :| 0 <= j < |queue| && queue[j] == p;
    }
  }

  /** When round k reaches no cell, every cell of the square was reached
      before it. */
  lemma RoundsExhausted(a: Area, k: int)
    requires k >= 0 && forall c :: !a.InRing(c, k)
    ensures forall c | a.Contains(c) :: a.Dist(c) < k
  {
    forall c | a.Contains(c)
      ensures a.Dist(c) < k
    {
      if a.Dist(c) >= k {
        var c' := Nearer(a, c, k);
        assert false;
      }
    }
  }

  // ---------------------------------------------------------------------
  // Unloaded columns
  // ---------------------------------------------------------------------

  /** The cells of `s` that have no column in the map, in order. */
  function UnloadedOf(w: World, s: seq<Cell>): (r: seq<Cell>)
    ensures forall c :: c in r <==> c in s && c !in w
    ensures Distinct(s) ==> Distinct(r)
  {
    if s == [] then []
    else
      var (r0, c) := (UnloadedOf(w, s[..|s| - 1]), s[|s| - 1]);
      assert Distinct(s) ==> c !in s[..|s| - 1];
      if c !in w then r0 + [c] else r0
  }

  /** Level k of the unloaded-column search: rounds 0 to 2 are examined
      together, every later round on its own. */
  ghost predicate UnloadedLevel(a: Area, k: int, c: Cell) {
    a.Contains(c) && if k <= 2 then a.Dist(c) <= k else a.Dist(c) == k
  }

  /** `r` holds exactly the unloaded columns of level `L`, and every column
      of the square nearer than that level is loaded. */
  ghost predicate NearestUnloaded(w: World, a: Area, L: int, r: seq<Cell>) {
    && 2 <= L
    && (forall c :: c in r <==> UnloadedLevel(a, L, c) && c !in w)
    && (forall c | a.Contains(c) && a.Dist(c) < L && !UnloadedLevel(a, L, c) :: c in w)
  }

  /** `flood_fill_unloaded_columns`: the columns the world generator should
      create next, nearest first, never closer than two rounds out. */
  method FloodFillUnloadedColumns(w: World, x: int, z: int, distance: int) returns (r: seq<Cell>)
    requires distance >= 2
    ensures Distinct(r)
    ensures forall c | c in r :: Area((x, z), distance).Contains(c) && c !in w
    ensures r == [] <==> forall c | Area((x, z), distance).Contains(c) :: c in w
    ensures r != [] ==> exists L :: NearestUnloaded(w, Area((x, z), distance), L, r)
  {
    var a := Area((x, z), distance);
    var queue := [(x, z)];
    var ring := [(x, z)];
    var visited := {(x, z)};
    var ringNumber := 0;
    while queue != []
      invariant 0 <= ringNumber <= 2 * distance + 1
      invariant forall c :: c in visited <==> a.InDisk(c, ringNumber)
      invariant forall c :: c in queue <==> UnloadedLevel(a, ringNumber, c)
      invariant ringNumber <= 1 ==> Distinct(ring) && forall c :: c in ring <==> a.InDisk(c, ringNumber)
      invariant ringNumber >= 2 ==> ring == [] && forall c | a.InDisk(c, ringNumber) :: c in w
      decreases 2 * distance + 1 - ringNumber
    {
      assert UnloadedLevel(a, ringNumber, queue[0]);
      visited, ring := ExpandRing(a, ringNumber, queue, visited, ring);
      ringNumber := ringNumber + 1;
      if ringNumber < 2 {
        queue := ring;
        continue;
      }
      var unloaded := [];
      for i := 0 to |ring|
        invariant unloaded == UnloadedOf(w, ring[..i])
      {
        assert ring[..i + 1][..i] == ring[..i];
        if ring[i] !in w {
          unloaded := unloaded + [ring[i]];
        }
      }
      assert ring[..|ring|] == ring;
      if unloaded != [] {
        assert NearestUnloaded(w, a, ringNumber, unloaded);
        assert unloaded[0] in unloaded;
        return unloaded;
      }
      queue := ring;
      ring := [];
    }
    assert !UnloadedLevel(a, ringNumber, (x, z));
    assert forall c :: a.InRing(c, ringNumber) ==> UnloadedLevel(a, ringNumber, c);
    RoundsExhausted(a, ringNumber);
    r := [];
  }

  // ---------------------------------------------------------------------
  // Unfoliated columns
  // ---------------------------------------------------------------------

  /** A loaded column that has not yet received its trees. A column with no
      entry in the map counts as foliated, so it never qualifies. */
  predicate Unfoliated(w: World, c: Cell) {
    c in w && !w[c].hasFoliage
  }

  /** The cells of `s` whose columns are loaded but not yet foliated, in order. */
  function UnfoliatedOf(w: World, s: seq<Cell>): (r: seq<Cell>)
    ensures forall c :: c in r <==> c in s && Unfoliated(w, c)
    ensures Distinct(s) ==> Distinct(r)
  {
    if s == [] then []
    else
      var (r0, c) := (UnfoliatedOf(w, s[..|s| - 1]), s[|s| - 1]);
      assert Distinct(s) ==> c !in s[..|s| - 1];
      if Unfoliated(w, c) then r0 + [c] else r0
  }

  /** Level k of the unfoliated-column search: the centre on its own, then
      rounds 0 and 1 together, then every later round on its own. */
  ghost predicate UnfoliatedLevel(a: Area, k: int, c: Cell) {
    a.Contains(c) && if k <= 1 then a.Dist(c) <= k else a.Dist(c) == k
  }

  /** `r` holds exactly the unfoliated columns of level `L`, and no column
      of the square nearer than that level is unfoliated. */
  ghost predicate NearestUnfoliated(w: World, a: Area, L: int, r: seq<Cell>) {
    && 0 <= L
    && (forall c :: c in r <==> UnfoliatedLevel(a, L, c) && Unfoliated(w, c))
    && (forall c | a.Contains(c) && a.Dist(c) < L && !UnfoliatedLevel(a, L, c) :: !Unfoliated(w, c))
  }

  /** `flood_fill_unfoliated_columns`: the columns that should receive trees
      next, nearest first; the player's own column alone when it qualifies. */
  method FloodFillUnfoliatedColumns(w: World, x: int, z: int, distance: int) returns (r: seq<Cell>)
    requires distance >= 0
    ensures Unfoliated(w, (x, z)) ==> r == [(x, z)]
    ensures Distinct(r)
    ensures forall c | c in r :: Area((x, z), distance).Contains(c) && Unfoliated(w, c)
    ensures r == [] <==> forall c | Area((x, z), distance).Contains(c) :: !Unfoliated(w, c)
    ensures r != [] ==> exists L :: NearestUnfoliated(w, Area((x, z), distance), L, r)
  {
    var a := Area((x, z), distance);
    var queue := [(x, z)];
    var ring := [(x, z)];
    var visited := {(x, z)};
    if (x, z) in w && !w[(x, z)].hasFoliage {
      assert NearestUnfoliated(w, a, 0, ring) && a.Contains((x, z));
      return ring;
    }
    ghost var k := 0;
    while queue != []
      invariant 0 <= k <= 2 * distance + 2
      invariant forall c :: c in visited <==> a.InDisk(c, k)
      invariant forall c :: c in queue <==> UnfoliatedLevel(a, k, c)
      invariant k == 0 ==> ring == [(x, z)]
      invariant k >= 1 ==> ring == [] && forall c | a.InDisk(c, k) :: !Unfoliated(w, c)
      decreases 2 * distance + 2 - k
    {
      assert UnfoliatedLevel(a, k, queue[0]);
      visited, ring := ExpandRing(a, k, queue, visited, ring);
      k := k + 1;
      var unfoliated := [];
      for i := 0 to |ring|
        invariant unfoliated == UnfoliatedOf(w, ring[..i])
      {
        assert ring[..i + 1][..i] == ring[..i];
        var hasFoliage := if ring[i] in w then w[ring[i]].hasFoliage else true;
        if !hasFoliage {
          unfoliated := unfoliated + [ring[i]];
        }
      }
      assert ring[..|ring|] == ring;
      if unfoliated != [] {
        assert NearestUnfoliated(w, a, k, unfoliated);
        assert unfoliated[0] in unfoliated;
        return unfoliated;
      }
      queue := ring;
      ring := [];
    }
    assert !UnfoliatedLevel(a, k, (x, z));
    assert forall c :: a.InRing(c, k) ==> UnfoliatedLevel(a, k, c);
    RoundsExhausted(a, k);
    r := [];
  }
}
