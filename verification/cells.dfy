/** The `cells` package: a cell with its current and pending state, and the
    square board that owns the cells, advances them in one in-place pass and
    draws the live ones. */
module Cells {
  import opened LifeRules
  import opened Render

  /** Number of floats in `unitSquare`: two triangles of three vertices,
      three coordinates each. */
  const UnitSquareLen := 18

  class Cell {
    /** Handle of the cell's vertex array object; never recreated. */
    const drawable: int
    /** State shown this generation, and read by the neighbours' counts. */
    var alive: bool
    /** State computed for the next generation; committed to `alive` at the
        start of the cell's next transition. */
    var aliveNext: bool
    /** Grid coordinates; no code path writes them after construction. */
    const x: int
    const y: int

    /** InitCell without the screen geometry: the random draw against the
        threshold and the VAO handle are passed in. Both state flags start
        equal. */
    constructor (x: int, y: int, alive: bool, drawable: int)
      ensures this.x == x && this.y == y && this.drawable == drawable
      ensures this.alive == alive && this.aliveNext == alive
    {
      this.drawable := drawable;
      this.alive := alive;
      this.aliveNext := alive;
      this.x := x;
      this.y := y;
    }

    /** A dead cell issues nothing; a live one draws its quad. */
    method Draw(r: Renderer)
      modifies r
      ensures r.events == old(r.events) + CellDraws(alive, drawable)
    {
      if !alive {
        return;
      }
      r.DrawVAO(drawable, UnitSquareLen);
    }

    /** One transition of the board's cell at (x, y): commit the pending
        state, count the neighbours on the board as it is now (this cell
        already committed), and set the pending state by B3/S23. Only this
        cell's two flags change, so the board's flags change at (x, y)
        alone. */
    method CheckState(b: Board)
      requires b.Valid() && 0 <= x < b.numCells && 0 <= y < b.numCells && b.grid[x][y] == this
      modifies this, b
      ensures b.Valid()
      ensures alive == old(aliveNext)
      ensures aliveNext == LifeRule(alive, NeighborCount(b.aliveGrid, b.numCells, x, y))
      ensures b.aliveGrid == old(b.aliveGrid)[x := old(b.aliveGrid)[x][y := alive]]
      ensures b.nextGrid == old(b.nextGrid)[x := old(b.nextGrid)[x][y := aliveNext]]
    {
      Commit(b);
      var liveCount := LiveNeighbors(b);
      Decide(b, liveCount);
    }

    /** The first statement of checkState: the pending state becomes the
        current one; the pending state itself is left as it was. */
    method Commit(b: Board)
      requires b.Valid() && 0 <= x < b.numCells && 0 <= y < b.numCells && b.grid[x][y] == this
      modifies this, b
      ensures b.Valid()
      ensures alive == old(aliveNext) && aliveNext == old(aliveNext)
      ensures b.aliveGrid == old(b.aliveGrid)[x := old(b.aliveGrid)[x][y := alive]]
      ensures b.nextGrid == old(b.nextGrid)
    {
      alive := aliveNext;
      b.aliveGrid := b.aliveGrid[x := b.aliveGrid[x][y := alive]];
      forall i, j | 0 <= i < b.numCells && 0 <= j < b.numCells && (i != x || j != y)
        ensures b.grid[i][j].alive == b.aliveGrid[i][j]
      {
        assert b.grid[i][j] != this;
      }
    }

    /** The branches of checkState: with the pending state equal to the
        committed one, a live cell with fewer than two or more than three
        live neighbours is marked to die, a dead one with exactly three is
        marked to be born, and otherwise the state is kept. */
    method Decide(b: Board, liveCount: int)
      requires b.Valid() && 0 <= x < b.numCells && 0 <= y < b.numCells && b.grid[x][y] == this
      requires aliveNext == alive
      modifies this, b
      ensures b.Valid()
      ensures alive == old(alive) && aliveNext == LifeRule(alive, liveCount)
      ensures b.aliveGrid == old(b.aliveGrid)
      ensures b.nextGrid == old(b.nextGrid)[x := old(b.nextGrid)[x][y := aliveNext]]
    {
      if alive {
        if liveCount < 2 || liveCount > 3 {
          aliveNext := false;
        }
      } else {
        if liveCount == 3 {
          aliveNext := true;
        }
      }
      b.nextGrid := b.nextGrid[x := b.nextGrid[x][y := aliveNext]];
      forall i, j | 0 <= i < b.numCells && 0 <= j < b.numCells && (i != x || j != y)
        ensures b.grid[i][j].aliveNext == b.nextGrid[i][j]
      {
        assert b.grid[i][j] != this;
      }
    }

    /** The eight probes around (x, y), each wrapped once per axis; reads
        only `alive` flags and changes nothing. */
    method LiveNeighbors(b: Board) returns (liveCount: int)
      requires b.Valid() && 0 <= x < b.numCells && 0 <= y < b.numCells
      ensures liveCount == NeighborCount(b.aliveGrid, b.numCells, x, y)
      ensures 0 <= liveCount <= 8
    {
      liveCount := 0;
      liveCount := Add(b, x - 1, y, liveCount);     // to the left
      liveCount := Add(b, x + 1, y, liveCount);     // to the right
      liveCount := Add(b, x, y + 1, liveCount);     // up
      liveCount := Add(b, x, y - 1, liveCount);     // down
      liveCount := Add(b, x - 1, y + 1, liveCount); // top-left
      liveCount := Add(b, x + 1, y + 1, liveCount); // top-right
      liveCount := Add(b, x - 1, y - 1, liveCount); // bottom-left
      liveCount := Add(b, x + 1, y - 1, liveCount); // bottom-right
    }
  }

  /** The `add` closure of LiveNeighbors: an index equal to the board size
      becomes 0, an index of -1 becomes the last one, and the cell found
      there is counted when it is alive. */
  function Add(b: Board, x: int, y: int, liveCount: int): (count: int)
    requires b.Valid() && b.numCells >= 1
    requires -1 <= x <= b.numCells && -1 <= y <= b.numCells
    reads b, b.cells
    ensures count == liveCount + Probe(b.aliveGrid, b.numCells, x, y)
  {
    var i := if x == b.numCells then 0 else if x == -1 then b.numCells - 1 else x;
    var j := if y == b.numCells then 0 else if y == -1 then b.numCells - 1 else y;
    if b.grid[i][j].alive then liveCount + 1 else liveCount
  }

  class Board {
    /** Cells per side. */
    const numCells: nat
    /** grid[x][y] is the cell at (x, y); the slices are never replaced. */
    const grid: seq<seq<Cell>>
    /** The cells' `alive` flags, `aliveNext` flags and VAO handles, as
        boards indexed [x][y]. */
    ghost var aliveGrid: seq<seq<bool>>
    ghost var nextGrid: seq<seq<bool>>
    ghost const vaoGrid: seq<seq<int>>
    /** Every cell of the grid. */
    ghost const cells: set<Cell>

    /** The grid is numCells x numCells, every cell's coordinates are its
        position (which also makes the cells pairwise distinct), and the
        three boards hold the cells' fields. */
    ghost predicate Valid()
      reads this, cells
    {
      |grid| == numCells && (forall x :: 0 <= x < numCells ==> |grid[x]| == numCells) &&
      IsGrid(aliveGrid, numCells) && IsGrid(nextGrid, numCells) && SameShape(aliveGrid, vaoGrid) &&
      forall x, y {:trigger grid[x][y]} :: 0 <= x < numCells && 0 <= y < numCells ==>
        grid[x][y] in cells && grid[x][y].x == x && grid[x][y].y == y &&
        grid[x][y].alive == aliveGrid[x][y] && grid[x][y].aliveNext == nextGrid[x][y] &&
        grid[x][y].drawable == vaoGrid[x][y]
    }

    /** MakeBoard: numCells rows of numCells new cells, the cell built for
        (x, y) stored at grid[x][y], each starting with alive and aliveNext
        both equal to the seed. */
    constructor (numCells: nat, seed: seq<seq<bool>>, vaos: seq<seq<int>>)
      requires IsGrid(seed, numCells) && SameShape(seed, vaos)
      ensures Valid() && this.numCells == numCells
      ensures aliveGrid == seed && nextGrid == seed && vaoGrid == vaos
      ensures fresh(cells)
    {
      var rows: seq<seq<Cell>> := [];
      var x := 0;
      while x < numCells
        invariant 0 <= x <= numCells && |rows| == x
        invariant forall i :: 0 <= i < x ==> |rows[i]| == numCells
        invariant forall i, j :: 0 <= i < x && 0 <= j < numCells ==>
          fresh(rows[i][j]) && rows[i][j].x == i && rows[i][j].y == j &&
          rows[i][j].alive == seed[i][j] && rows[i][j].aliveNext == seed[i][j] &&
          rows[i][j].drawable == vaos[i][j]
      {
        var row: seq<Cell> := [];
        var y := 0;
        while y < numCells
          invariant 0 <= y <= numCells && |row| == y
          invariant forall j :: 0 <= j < y ==>
            fresh(row[j]) && row[j].x == x && row[j].y == j &&
            row[j].alive == seed[x][j] && row[j].aliveNext == seed[x][j] && row[j].drawable == vaos[x][j]
          invariant forall i, j :: 0 <= i < x && 0 <= j < numCells ==>
            rows[i][j].alive == seed[i][j] && rows[i][j].aliveNext == seed[i][j]
        {
          var c := new Cell(x, y, seed[x][y], vaos[x][y]);
          row := row + [c];
          y := y + 1;
        }
        rows := rows + [row];
        x := x + 1;
      }
      this.numCells := numCells;
      this.grid := rows;
      this.aliveGrid := seed;
      this.nextGrid := seed;
      this.vaoGrid := vaos;
      this.cells := set i, j | 0 <= i < numCells && 0 <= j < numCells :: rows[i][j];
    }

    /** UpdateState: CheckState on every cell in one pass, x-major, then y.
        Every cell commits its pending state, and the new pending board is
        the one the order-dependent pass computes: each count sees the
        cells already visited with their committed state and the others
        with the state they had before the pass. */
    method UpdateState()
      requires Valid()
      modifies this, cells
      ensures Valid()
      ensures aliveGrid == old(nextGrid)
      ensures nextGrid == PassNext(old(aliveGrid), old(nextGrid), numCells)
    {
      ghost var a, nx := aliveGrid, nextGrid;
      ghost var want := PassNext(a, nx, numCells);
      MixedBegins(a, nx, numCells);
      MixedBegins(nx, want, numCells);
      var x := 0;
      while x < numCells
        invariant 0 <= x <= numCells && Valid() && PassAt(aliveGrid, nextGrid, a, nx, want, numCells, x, 0)
      {
        UpdateRow(x, a, nx, want);
        x := x + 1;
      }
      MixedEnds(aliveGrid, a, nx, numCells);
      MixedEnds(nextGrid, nx, want, numCells);
    }

    /** The inner loop of UpdateState: CheckState on (x, 0), ..., (x, n - 1),
        in that order. */
    method UpdateRow(x: int, ghost a: seq<seq<bool>>, ghost nx: seq<seq<bool>>, ghost want: seq<seq<bool>>)
      requires Valid() && 0 <= x < numCells && PassAt(aliveGrid, nextGrid, a, nx, want, numCells, x, 0)
      requires want == PassNext(a, nx, numCells)
      modifies this, cells
      ensures Valid() && PassAt(aliveGrid, nextGrid, a, nx, want, numCells, x + 1, 0)
    {
      var y := 0;
      while y < numCells
        invariant 0 <= y <= numCells && Valid() && PassAt(aliveGrid, nextGrid, a, nx, want, numCells, x, y)
      {
        Visit(x, y, a, nx, want);
        y := y + 1;
      }
      MixedRowDone(aliveGrid, a, nx, numCells, x);
      MixedRowDone(nextGrid, nx, want, numCells, x);
    }

    /** The body of the inner loop: CheckState on (x, y), which moves the
        pass on by one cell. */
    method Visit(x: int, y: int, ghost a: seq<seq<bool>>, ghost nx: seq<seq<bool>>, ghost want: seq<seq<bool>>)
      requires Valid() && 0 <= x < numCells && 0 <= y < numCells && PassAt(aliveGrid, nextGrid, a, nx, want, numCells, x, y)
      requires want == PassNext(a, nx, numCells)
      modifies this, cells
      ensures Valid() && PassAt(aliveGrid, nextGrid, a, nx, want, numCells, x, y + 1)
    {
      ghost var ag, ng := aliveGrid, nextGrid;
      var c := grid[x][y];
      assert c.aliveNext == ng[x][y];
      c.CheckState(this);
      PassStep(ag, ng, a, nx, want, numCells, x, y, aliveGrid, nextGrid);
    }

    /** The update the single pass evidently stands for: commit every
        cell first, then decide every cell, so that every count reads the
        same generation. The new pending board is the Life successor of
        the newly committed one. */
    method UpdateStateTwoPhase()
      requires Valid()
      modifies this, cells
      ensures Valid()
      ensures aliveGrid == old(nextGrid)
      ensures nextGrid == Step(old(nextGrid), numCells)
    {
      ghost var a, nx := aliveGrid, nextGrid;
      MixedBegins(a, nx, numCells);
      var x := 0;
      while x < numCells
        invariant 0 <= x <= numCells && Valid() && nextGrid == nx && Mixed(aliveGrid, a, nx, numCells, x, 0)
      {
        CommitRow(x, a, nx);
        x := x + 1;
      }
      MixedEnds(aliveGrid, a, nx, numCells);
      ghost var want := Step(nx, numCells);
      MixedBegins(nx, want, numCells);
      x := 0;
      while x < numCells
        invariant 0 <= x <= numCells && Valid() && aliveGrid == nx && Mixed(nextGrid, nx, want, numCells, x, 0)
      {
        DecideRow(x, nx, want);
        x := x + 1;
      }
      MixedEnds(nextGrid, nx, want, numCells);
    }

    /** First phase, one row: Commit on (x, 0), ..., (x, n - 1). */
    method CommitRow(x: int, ghost a: seq<seq<bool>>, ghost nx: seq<seq<bool>>)
      requires Valid() && 0 <= x < numCells && nextGrid == nx && Mixed(aliveGrid, a, nx, numCells, x, 0)
      modifies this, cells
      ensures Valid() && nextGrid == nx && Mixed(aliveGrid, a, nx, numCells, x + 1, 0)
    {
      var y := 0;
      while y < numCells
        invariant 0 <= y <= numCells && Valid() && nextGrid == nx && Mixed(aliveGrid, a, nx, numCells, x, y)
      {
        CommitAt(x, y, a, nx);
        y := y + 1;
      }
      MixedRowDone(aliveGrid, a, nx, numCells, x);
    }

    /** The body of CommitRow's loop: Commit on (x, y). */
    method CommitAt(x: int, y: int, ghost a: seq<seq<bool>>, ghost nx: seq<seq<bool>>)
      requires Valid() && 0 <= x < numCells && 0 <= y < numCells && nextGrid == nx && Mixed(aliveGrid, a, nx, numCells, x, y)
      modifies this, cells
      ensures Valid() && nextGrid == nx && Mixed(aliveGrid, a, nx, numCells, x, y + 1)
    {
      MixedVisit(aliveGrid, a, nx, numCells, x, y);
      var c := grid[x][y];
      assert c.aliveNext == nx[x][y];
      c.Commit(this);
    }

    /** Second phase, one row: count and decide (x, 0), ..., (x, n - 1) on
        the committed board g, which no decision changes. */
    method DecideRow(x: int, ghost g: seq<seq<bool>>, ghost want: seq<seq<bool>>)
      requires Valid() && 0 <= x < numCells && aliveGrid == g && Mixed(nextGrid, g, want, numCells, x, 0)
      requires want == Step(g, numCells)
      modifies this, cells
      ensures Valid() && aliveGrid == g && Mixed(nextGrid, g, want, numCells, x + 1, 0)
    {
      var y := 0;
      while y < numCells
        invariant 0 <= y <= numCells && Valid() && aliveGrid == g && Mixed(nextGrid, g, want, numCells, x, y)
      {
        DecideAt(x, y, g, want);
        y := y + 1;
      }
      MixedRowDone(nextGrid, g, want, numCells, x);
    }

    /** The body of DecideRow's loop: count and decide (x, y). */
    method DecideAt(x: int, y: int, ghost g: seq<seq<bool>>, ghost want: seq<seq<bool>>)
      requires Valid() && 0 <= x < numCells && 0 <= y < numCells && aliveGrid == g && Mixed(nextGrid, g, want, numCells, x, y)
      requires want == Step(g, numCells)
      modifies this, cells
      ensures Valid() && aliveGrid == g && Mixed(nextGrid, g, want, numCells, x, y + 1)
    {
      ghost var ng := nextGrid;
      var c := grid[x][y];
      assert c.alive == g[x][y] && c.aliveNext == ng[x][y] == g[x][y];
      var liveCount := c.LiveNeighbors(this);
      c.Decide(this, liveCount);
      DecideStep(ng, g, want, numCells, x, y, nextGrid);
    }

    /** Draw: begin the frame, draw every live cell in x-major order, end
        the frame. */
    method Draw(r: Renderer)
      requires Valid()
      modifies r
      ensures r.events == old(r.events) + [BeginFrame] + GridDraws(aliveGrid, vaoGrid, numCells) + [EndFrame]
    {
      r.PreDraw();
      ghost var start, alive, vaos := r.events, aliveGrid, vaoGrid;
      var x := 0;
      while x < numCells
        invariant 0 <= x <= numCells
        invariant r.events == start + GridDraws(alive, vaos, x)
      {
        ghost var rowStart := r.events;
        DrawRow(x, r);
        GridDrawsStep(start, rowStart, r.events, alive, vaos, x);
        x := x + 1;
      }
      r.PostDraw();
    }

    /** The inner loop of Draw: the cells (x, 0), ..., (x, n - 1) draw
        themselves in that order. */
    method DrawRow(x: int, r: Renderer)
      requires Valid() && 0 <= x < numCells
      modifies r
      ensures r.events == old(r.events) + RowDraws(aliveGrid[x], vaoGrid[x], numCells)
    {
      ghost var rowStart := r.events;
      var y := 0;
      while y < numCells
        invariant 0 <= y <= numCells
        invariant r.events == rowStart + RowDraws(aliveGrid[x], vaoGrid[x], y)
      {
        ghost var before := r.events;
        grid[x][y].Draw(r);
        RowDrawsStep(rowStart, before, r.events, aliveGrid[x], vaoGrid[x], y);
        y := y + 1;
      }
    }
  }
}
