/** The 15 x 15 grid shared by the game state and the search.
    A cell is empty or holds a stone of one colour; `true` is black (the
    human, who moves first) and `false` is white (the AI), the same encoding
    the source uses for its `Boolean[][]` board with `null` for empty. */
module Board {

  /** Side length of the board (BOARD_SIZE). */
  const N: int := 15

  datatype Cell = Empty | Stone(player: bool)

  /** A snapshot of the board: g[x][y] is the cell in column x, row y
      of the drawn board. */
  type Grid = seq<seq<Cell>>

  predicate WellFormed(g: Grid) {
    |g| == N && forall i :: 0 <= i < N ==> |g[i]| == N
  }

  predicate InBounds(x: int, y: int) {
    0 <= x < N && 0 <= y < N
  }

  predicate Dims(b: array2<Cell>) {
    b.Length0 == N && b.Length1 == N
  }

  /** The grid with the cell (x, y) overwritten by c (the source's raw
      `board[x][y] = c`, which checks nothing). */
  function Place(g: Grid, x: int, y: int, c: Cell): (h: Grid)
    requires WellFormed(g) && InBounds(x, y)
    ensures WellFormed(h) && h[x][y] == c
    ensures forall i, j :: InBounds(i, j) && (i != x || j != y) ==> h[i][j] == g[i][j]
  {
    g[x := g[x][y := c]]
  }

  /** The board every new game starts from. */
  function EmptyGrid(): (g: Grid)
    ensures WellFormed(g)
    ensures forall i, j :: InBounds(i, j) ==> g[i][j] == Empty
  {
    seq(N, i => seq(N, j => Empty))
  }

  /** No empty cell is left. */
  predicate Full(g: Grid)
    requires WellFormed(g)
  {
    forall i, j :: 0 <= i < N && 0 <= j < N ==> g[i][j] != Empty
  }

  /** Cell (a, b) comes at or before cell (c, d) in row-major order, the
      order in which every scan of the board visits the cells. */
  predicate RowMajorLe(a: int, b: int, c: int, d: int) {
    a < c || (a == c && b <= d)
  }

  /** The current contents of an N x N array as a grid. */
  ghost function Snap(b: array2<Cell>): (g: Grid)
    reads b
    requires Dims(b)
    ensures WellFormed(g)
    ensures forall i, j :: InBounds(i, j) ==> g[i][j] == b[i, j]
  {
    seq(N, i requires 0 <= i < N reads b =>
      seq(N, j requires 0 <= j < N reads b => b[i, j]))
  }

  /** The array holds exactly the cells of g. */
  ghost predicate Mirrors(b: array2<Cell>, g: Grid)
    reads b
  {
    Dims(b) && WellFormed(g) && forall i, j :: InBounds(i, j) ==> b[i, j] == g[i][j]
  }

  lemma GridExt(g: Grid, h: Grid)
    requires WellFormed(g) && WellFormed(h)
    requires forall i, j :: InBounds(i, j) ==> g[i][j] == h[i][j]
    ensures g == h
  {
    forall i | 0 <= i < N
      ensures g[i] == h[i]
    {
      assert forall j :: 0 <= j < N ==> g[i][j] == h[i][j];
    }
  }

  /** An array whose every cell agrees with g snapshots to g. */
  lemma SnapIs(b: array2<Cell>, g: Grid)
    requires Dims(b) && WellFormed(g)
    requires forall i, j :: InBounds(i, j) ==> b[i, j] == g[i][j]
    ensures Snap(b) == g
  {
    GridExt(Snap(b), g);
  }

  /** An array that agrees with g except that (x, y) holds c snapshots to
      Place(g, x, y, c). */
  lemma SnapIsPlace(b: array2<Cell>, g: Grid, x: int, y: int, c: Cell)
    requires Dims(b) && WellFormed(g) && InBounds(x, y)
    requires b[x, y] == c
    requires forall i, j :: InBounds(i, j) && (i != x || j != y) ==> b[i, j] == g[i][j]
    ensures Snap(b) == Place(g, x, y, c)
  {
    GridExt(Snap(b), Place(g, x, y, c));
  }

  /** Writing back a cell's old content undoes a placement. */
  lemma PlaceUndo(g: Grid, x: int, y: int, c: Cell)
    requires WellFormed(g) && InBounds(x, y)
    ensures Place(Place(g, x, y, c), x, y, g[x][y]) == g
  {
    GridExt(Place(Place(g, x, y, c), x, y, g[x][y]), g);
  }

  /** `board[x][y] = c` on the array, followed on its grid. */
  method SetCell(b: array2<Cell>, ghost g: Grid, x: int, y: int, c: Cell)
    requires Mirrors(b, g) && InBounds(x, y)
    modifies b
    ensures Mirrors(b, Place(g, x, y, c))
  {
    b[x, y] := c;
  }
}
