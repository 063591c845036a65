/**
 * Where trees grow in a column: a grid of noise samples, one cell wider
 * than the column on every side, is scanned for strict local maxima, and
 * each maximum inside the column becomes a tree. The noise function is
 * floating point and foreign; here it is an abstract function from grid
 * row and column (each in -1..16, row along z and column along x) to an
 * integer sample, which keeps the only thing the scan uses: the order of
 * the samples.
 */
module TreePlacement {

  /** Cells per row of the sample grid: the 16 columns of a chunk and one on each side. */
  const GRID_WIDTH: int := 18
  /** Cells in the sample grid. */
  const GRID_CELLS: int := 324

  /** Position of grid cell (i, j) in the flat sample array. */
  function Index(i: int, j: int): (k: int)
    requires 0 <= i < GRID_WIDTH && 0 <= j < GRID_WIDTH
    ensures 0 <= k < GRID_CELLS
  {
    18 * i + j
  }

  /** Every array position is the index of exactly one grid cell. */
  lemma IndexCovers(k: int)
    requires 0 <= k < GRID_CELLS
    ensures 0 <= k / 18 < GRID_WIDTH && 0 <= k % 18 < GRID_WIDTH && Index(k / 18, k % 18) == k
  {
  }

  /** The grid the fill loop leaves behind: cell (r, c) holds the sample at
      row r - 1, column c - 1, except the last column, which the loop never
      reaches and which keeps the array's initial zero. */
  function WrittenGrid(noise: (int, int) -> int): (g: seq<int>)
    ensures |g| == GRID_CELLS
    ensures forall r, c | 0 <= r < GRID_WIDTH && 0 <= c < GRID_WIDTH ::
      g[Index(r, c)] == if c == 17 then 0 else noise(r - 1, c - 1)
  {
    seq(GRID_CELLS, k => if k % 18 == 17 then 0 else noise(k / 18 - 1, k % 18 - 1))
  }

  /** The grid with every cell sampled, the last column included. */
  function FullGrid(noise: (int, int) -> int): (g: seq<int>)
    ensures |g| == GRID_CELLS
    ensures forall r, c | 0 <= r < GRID_WIDTH && 0 <= c < GRID_WIDTH :: g[Index(r, c)] == noise(r - 1, c - 1)
  {
    seq(GRID_CELLS, k => noise(k / 18 - 1, k % 18 - 1))
  }

  /** Cell (i, j) is greater than each of its eight neighbours; a tie disqualifies it. */
  ghost predicate StrictLocalMax(g: seq<int>, i: int, j: int)
    requires |g| == GRID_CELLS && 1 <= i < 17 && 1 <= j < 17
  {
    forall a, b | i - 1 <= a <= i + 1 && j - 1 <= b <= j + 1 && (a, b) != (i, j) :: g[Index(a, b)] < g[Index(i, j)]
  }

  /** Block (x, z) of the column gets a tree: its grid cell (z + 1, x + 1) is a strict local maximum. */
  ghost predicate IsTree(g: seq<int>, x: int, z: int)
    requires |g| == GRID_CELLS
  {
    0 <= x < 16 && 0 <= z < 16 && StrictLocalMax(g, z + 1, x + 1)
  }

  /** Row-major order of the scan: by z, then by x. */
  predicate ScannedBefore(p: (int, int), q: (int, int)) {
    p.1 < q.1 || (p.1 == q.1 && p.0 < q.0)
  }

  /** Fills the sample array as the source does: rows -1..16, columns -1..15. */
  method FillSamples(noise: (int, int) -> int) returns (samples: array<int>)
    ensures fresh(samples) && samples[..] == WrittenGrid(noise)
  {
    samples := new int[GRID_CELLS](_ => 0);
    for i := -1 to 17
      invariant samples.Length == GRID_CELLS
      invariant forall r, c | 0 <= r < GRID_WIDTH && 0 <= c < GRID_WIDTH ::
        samples[Index(r, c)] == if r <= i && c < 17 then noise(r - 1, c - 1) else 0
    {
      for j := -1 to 16
        invariant forall r, c | 0 <= r < GRID_WIDTH && 0 <= c < GRID_WIDTH ::
          samples[Index(r, c)] == if (r <= i || (r == i + 1 && c <= j)) && c < 17 then noise(r - 1, c - 1) else 0
      {
        samples[Index(i + 1, j + 1)] := noise(i, j);
      }
    }
    SameGrid(samples[..], WrittenGrid(noise));
  }

  /** The fill loop with the column range the row range already has: -1..16. */
  method FillSamplesFull(noise: (int, int) -> int) returns (samples: array<int>)
    ensures fresh(samples) && samples[..] == FullGrid(noise)
  {
    samples := new int[GRID_CELLS](_ => 0);
    for i := -1 to 17
      invariant samples.Length == GRID_CELLS
      invariant forall r, c | 0 <= r < GRID_WIDTH && 0 <= c < GRID_WIDTH ::
        samples[Index(r, c)] == if r <= i then noise(r - 1, c - 1) else 0
    {
      for j := -1 to 17
        invariant forall r, c | 0 <= r < GRID_WIDTH && 0 <= c < GRID_WIDTH ::
          samples[Index(r, c)] == if r <= i || (r == i + 1 && c <= j) then noise(r - 1, c - 1) else 0
      {
        samples[Index(i + 1, j + 1)] := noise(i, j);
      }
    }
    SameGrid(samples[..], FullGrid(noise));
  }

  /** Two grids that agree cell by cell are equal. */
  lemma SameGrid(g: seq<int>, h: seq<int>)
    requires |g| == GRID_CELLS && |h| == GRID_CELLS
    requires forall r, c | 0 <= r < GRID_WIDTH && 0 <= c < GRID_WIDTH :: g[Index(r, c)] == h[Index(r, c)]
    ensures g == h
  {
    forall k | 0 <= k < GRID_CELLS
      ensures g[k] == h[k]
    {
      IndexCovers(k);
    }
  }

  /** The closure of the source: is cell (i, j) above all eight neighbours? */
  method IsMax(samples: array<int>, i: int, j: int) returns (b: bool)
    requires samples.Length == GRID_CELLS && 1 <= i < 17 && 1 <= j < 17
    ensures b <==> StrictLocalMax(samples[..], i, j)
  {
    var center := samples[Index(i, j)];
    for a := i - 1 to i + 2
      invariant forall a', b' | i - 1 <= a' < a && j - 1 <= b' <= j + 1 && (a', b') != (i, j) ::
        samples[Index(a', b')] < center
    {
      for c := j - 1 to j + 2
        invariant forall a', b' | ((i - 1 <= a' < a && j - 1 <= b' <= j + 1) || (a' == a && j - 1 <= b' < c))
                                  && (a', b') != (i, j) ::
          samples[Index(a', b')] < center
      {
        if (a, c) != (i, j) && samples[Index(a, c)] >= center {
          return false;
        }
      }
    }
    return true;
  }

  /** The trees of block row `z` with x below `n`, in increasing x. */
  ghost function RowTrees(g: seq<int>, z: int, n: int): seq<(int, int)>
    requires |g| == GRID_CELLS && 0 <= n <= 16
  {
    if n == 0 then []
    else RowTrees(g, z, n - 1) + (if IsTree(g, n - 1, z) then [(n - 1, z)] else [])
  }

  /** The trees of block rows below `n`, in scan order. */
  ghost function TreesUpTo(g: seq<int>, n: int): seq<(int, int)>
    requires |g| == GRID_CELLS && 0 <= n <= 16
  {
    if n == 0 then [] else TreesUpTo(g, n - 1) + RowTrees(g, n - 1, 16)
  }

  /** `RowTrees` lists exactly the trees of its row below `n`, by increasing x. */
  lemma {:induction false} RowTreesFacts(g: seq<int>, z: int, n: int)
    requires |g| == GRID_CELLS && 0 <= n <= 16
    ensures forall p :: p in RowTrees(g, z, n) <==> IsTree(g, p.0, p.1) && p.1 == z && p.0 < n
    ensures forall a | 0 <= a < |RowTrees(g, z, n)| :: RowTrees(g, z, n)[a].1 == z && RowTrees(g, z, n)[a].0 < n
    ensures forall a, b | 0 <= a < b < |RowTrees(g, z, n)| :: RowTrees(g, z, n)[a].0 < RowTrees(g, z, n)[b].0
  {
    if n > 0 {
      RowTreesFacts(g, z, n - 1);
    }
  }

  /** `TreesUpTo` lists exactly the trees of the rows below `n`, in scan order. */
  lemma {:induction false} TreesUpToFacts(g: seq<int>, n: int)
    requires |g| == GRID_CELLS && 0 <= n <= 16
    ensures forall p :: p in TreesUpTo(g, n) <==> IsTree(g, p.0, p.1) && p.1 < n
    ensures forall a | 0 <= a < |TreesUpTo(g, n)| :: TreesUpTo(g, n)[a].1 < n
    ensures forall a, b | 0 <= a < b < |TreesUpTo(g, n)| :: ScannedBefore(TreesUpTo(g, n)[a], TreesUpTo(g, n)[b])
  {
    if n > 0 {
      TreesUpToFacts(g, n - 1);
      RowTreesFacts(g, n - 1, 16);
      AppendRow(TreesUpTo(g, n - 1), RowTrees(g, n - 1, 16), n - 1);
    }
  }

  /** Appending a row scanned after every block already listed keeps the
      list in scan order. */
  lemma AppendRow(before: seq<(int, int)>, row: seq<(int, int)>, z: int)
    requires forall a, b | 0 <= a < b < |before| :: ScannedBefore(before[a], before[b])
    requires forall a | 0 <= a < |before| :: before[a].1 < z
    requires forall a | 0 <= a < |row| :: row[a].1 == z
    requires forall a, b | 0 <= a < b < |row| :: row[a].0 < row[b].0
    ensures forall a, b | 0 <= a < b < |before + row| :: ScannedBefore((before + row)[a], (before + row)[b])
  {
  }

  /** Scans the interior cells in row-major order and lists each strict
      local maximum as the column's block (x, z): every tree, once each,
      in scan order. */
  method FindMaxima(samples: array<int>) returns (maximums: seq<(int, int)>)
    requires samples.Length == GRID_CELLS
    ensures maximums == TreesUpTo(samples[..], 16)
    ensures forall p :: p in maximums <==> IsTree(samples[..], p.0, p.1)
    ensures forall a, b | 0 <= a < b < |maximums| :: ScannedBefore(maximums[a], maximums[b])
  {
    maximums := [];
    for i := 1 to 17
      invariant maximums == TreesUpTo(samples[..], i - 1)
    {
      var row := ScanRow(samples, i);
      maximums := maximums + row;
    }
    TreesUpToFacts(samples[..], 16);
  }

  /** Scans grid row `i`: the trees of block row i - 1. */
  method ScanRow(samples: array<int>, i: int) returns (row: seq<(int, int)>)
    requires samples.Length == GRID_CELLS && 1 <= i < 17
    ensures row == RowTrees(samples[..], i - 1, 16)
  {
    row := [];
    for j := 1 to 17
      invariant row == RowTrees(samples[..], i - 1, j - 1)
    {
      var isMax := IsMax(samples, i, j);
      if isMax {
        row := row + [(j - 1, i - 1)];
      }
    }
  }

  /** `compute_tree_placement_in_chunk` as written: the trees of the grid
      whose last column was left at zero. Each block appears once, in scan
      order, and lies inside the column. */
  method ComputeTreePlacement(noise: (int, int) -> int) returns (maximums: seq<(int, int)>)
    ensures forall p :: p in maximums <==> IsTree(WrittenGrid(noise), p.0, p.1)
    ensures forall p | p in maximums :: 0 <= p.0 < 16 && 0 <= p.1 < 16
    ensures forall a, b | 0 <= a < b < |maximums| :: ScannedBefore(maximums[a], maximums[b])
  {
    var samples := FillSamples(noise);
    maximums := FindMaxima(samples);
  }

  /** Tree placement over the fully sampled grid. */
  method ComputeTreePlacementIntended(noise: (int, int) -> int) returns (maximums: seq<(int, int)>)
    ensures forall p :: p in maximums <==> IsTree(FullGrid(noise), p.0, p.1)
    ensures forall p | p in maximums :: 0 <= p.0 < 16 && 0 <= p.1 < 16
    ensures forall a, b | 0 <= a < b < |maximums| :: ScannedBefore(maximums[a], maximums[b])
  {
    var samples := FillSamplesFull(noise);
    maximums := FindMaxima(samples);
  }

  /** The unfilled column only matters at the column's last block row x = 15:
      everywhere else both grids place the same trees. */
  lemma PlacementAgreesAwayFromLastColumn(noise: (int, int) -> int, x: int, z: int)
    requires x < 15
    ensures IsTree(WrittenGrid(noise), x, z) <==> IsTree(FullGrid(noise), x, z)
  {
  }

  /** A noise field with a single peak at block (15, 0): the full grid puts
      a tree there, the grid as written does not, because the peak is
      compared with the zero left in column 17. */
  lemma LastColumnMissesTree()
    ensures var noise := (i: int, j: int) => if i == 0 && j == 15 then -1 else -2;
      IsTree(FullGrid(noise), 15, 0) && !IsTree(WrittenGrid(noise), 15, 0)
  {
    var noise := (i: int, j: int) => if i == 0 && j == 15 then -1 else -2;
    assert WrittenGrid(noise)[Index(1, 17)] == 0;
  }
}
