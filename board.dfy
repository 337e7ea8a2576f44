/*
 * The game board: a fixed mine set on a height x width grid, with the
 * queries the player asks of it (is this a mine, how many mines are
 * around this cell, has every mine been flagged).
 */
module Board {

  /** A position (row, column) on the board. */
  type Cell = (int, int)

  predicate InGrid(height: int, width: int, c: Cell)
  {
    0 <= c.0 < height && 0 <= c.1 < width
  }

  /** `d` is within one row and one column of `c` and is not `c` itself. */
  predicate Adjacent(c: Cell, d: Cell)
  {
    -1 <= d.0 - c.0 <= 1 && -1 <= d.1 - c.1 <= 1 && d != c
  }

  /** The mines the board reports around `c`: adjacent to it and on the board. */
  function MinesAround(height: int, width: int, mines: set<Cell>, c: Cell): set<Cell>
  {
    set d | d in mines && Adjacent(c, d) && InGrid(height, width, d)
  }

  /** The eight cells adjacent to `c`, ignoring the board's edges. */
  function Ring(c: Cell): set<Cell>
  {
    {(c.0 - 1, c.1 - 1), (c.0 - 1, c.1), (c.0 - 1, c.1 + 1),
     (c.0, c.1 - 1), (c.0, c.1 + 1),
     (c.0 + 1, c.1 - 1), (c.0 + 1, c.1), (c.0 + 1, c.1 + 1)}
  }

  lemma SubsetCardinality<T>(a: set<T>, b: set<T>)
    requires a <= b
    ensures |a| <= |b|
  {
    assert b == a + (b - a);
  }

  /** A subset as large as its superset is the superset itself. */
  lemma SubsetOfSameSize<T>(a: set<T>, b: set<T>)
    ensures a <= b && |a| == |b| <==> a == b
  {
    if a <= b && |a| == |b| {
      assert b == a + (b - a);
      assert |b - a| == 0;
    }
  }

  /** A cell has at most eight mines around it. */
  lemma MinesAroundAtMostEight(height: int, width: int, mines: set<Cell>, c: Cell)
    ensures |MinesAround(height, width, mines, c)| <= 8
  {
    var around := MinesAround(height, width, mines, c);
    forall d | d in around ensures d in Ring(c) {
      assert -1 <= d.0 - c.0 <= 1 && -1 <= d.1 - c.1 <= 1 && d != c;
    }
    SubsetCardinality(around, Ring(c));
  }

  /**
   * The position a Python index `i` in `-n..n-1` selects in a list of
   * length `n`: a negative index counts from the end, which is `i` modulo `n`.
   */
  function PythonIndex(i: int, n: int): (k: int)
    requires -n <= i < n
    ensures 0 <= k < n && k == i % n
  {
    if i < 0 then i + n else i
  }

  /** The cells of `s` that come before (i, j) in row-major order. */
  function Prefix(s: set<Cell>, i: int, j: int): set<Cell>
  {
    set d | d in s && (d.0 < i || (d.0 == i && d.1 < j))
  }

  class Minesweeper {
    const height: int
    const width: int
    /** The true mine positions; `board[i][j]` holds exactly when (i, j) is one of them. */
    const mines: set<Cell>
    /** The cells found to be mines; nothing in the game updates it after the constructor. */
    var minesFound: set<Cell>

    /** The mine set is taken as given; the random placement is not modelled. */
    constructor (height: int := 8, width: int := 8, mines: set<Cell>)
      requires forall c | c in mines :: InGrid(height, width, c)
      ensures this.height == height && this.width == width && this.mines == mines
      ensures minesFound == {}
    {
      this.height := height;
      this.width := width;
      this.mines := mines;
      minesFound := {};
    }

    /**
     * `board[i][j]` with Python indexing: a negative index counts from the
     * end of the row or column.
     */
    function IsMine(cell: Cell): (r: bool)
      requires -height <= cell.0 < height && -width <= cell.1 < width
      ensures InGrid(height, width, cell) ==> (r <==> cell in mines)
      ensures r <==> (cell.0 % height, cell.1 % width) in mines
    {
      (PythonIndex(cell.0, height), PythonIndex(cell.1, width)) in mines
    }

    /** Counts the mines within one row and one column of `cell`, clipped to the board. */
    method NearbyMines(cell: Cell) returns (count: int)
      ensures count == |MinesAround(height, width, mines, cell)|
      ensures 0 <= count <= 8
    {
      ghost var around := MinesAround(height, width, mines, cell);
      count := 0;
      var i := cell.0 - 1;
      while i < cell.0 + 2
        invariant cell.0 - 1 <= i <= cell.0 + 2
        invariant count == |Prefix(around, i, cell.1 - 1)|
      {
        var j := cell.1 - 1;
        while j < cell.1 + 2
          invariant cell.1 - 1 <= j <= cell.1 + 2
          invariant count == |Prefix(around, i, j)|
        {
          ghost var before := Prefix(around, i, j);
          if (i, j) != cell && 0 <= i < height && 0 <= j < width && IsMine((i, j)) {
            assert (i, j) in around;
            assert Prefix(around, i, j + 1) == before + {(i, j)};
            count := count + 1;
          } else {
            assert Prefix(around, i, j + 1) == before;
          }
          j := j + 1;
        }
        assert Prefix(around, i, j) == Prefix(around, i + 1, cell.1 - 1);
        i := i + 1;
      }
      assert Prefix(around, i, cell.1 - 1) == around;
      MinesAroundAtMostEight(height, width, mines, cell);
    }

    /** The game is won once the flagged cells are exactly the mines. */
    predicate Won()
      reads this
      ensures Won() <==> minesFound <= mines && |minesFound| == |mines|
    {
      SubsetOfSameSize(minesFound, mines);
      minesFound == mines
    }
  }
}
