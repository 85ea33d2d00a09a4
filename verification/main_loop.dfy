/** The program's own copy of the engine: a fixed 64 x 64 board, built once
    and then advanced and drawn once per frame until the window closes. */
module MainLoop {
  import opened LifeRules
  import opened Render
  import opened Cells

  /** Cells across and down. */
  const NumCells := 64

  /** makeCells: NumCells rows of NumCells cells, the cell for (x, y) at
      cells[x][y], each starting with its current and pending state both
      equal to its seed. */
  method MakeCells(seed: seq<seq<bool>>, vaos: seq<seq<int>>) returns (b: Board)
    requires IsGrid(seed, NumCells) && SameShape(seed, vaos)
    ensures b.Valid() && b.numCells == NumCells
    ensures b.aliveGrid == seed && b.nextGrid == b.aliveGrid && b.vaoGrid == vaos
    ensures fresh(b) && fresh(b.cells)
  {
    b := new Board(NumCells, seed, vaos);
  }

  /** The (alive, pending) boards after k frames of the single pass, from
      the boards (a, nx). */
  ghost function Generations(a: seq<seq<bool>>, nx: seq<seq<bool>>, n: nat, k: nat): (r: (seq<seq<bool>>, seq<seq<bool>>))
    requires IsGrid(a, n) && IsGrid(nx, n)
    ensures IsGrid(r.0, n) && IsGrid(r.1, n)
  {
    if k == 0 then (a, nx)
    else
      var p := Generations(a, nx, n, k - 1);
      (p.1, PassNext(p.0, p.1, n))
  }

  /** The calls k frames make on the renderer: each frame draws the live
      cells of the board that frame has just committed. */
  ghost function FrameLog(a: seq<seq<bool>>, nx: seq<seq<bool>>, vaos: seq<seq<int>>, n: nat, k: nat): (r: seq<Event>)
    requires IsGrid(a, n) && IsGrid(nx, n) && SameShape(a, vaos)
  {
    if k == 0 then []
    else
      var g := Generations(a, nx, n, k).0;
      assert SameShape(g, vaos);
      FrameLog(a, nx, vaos, n, k - 1) + [BeginFrame] + GridDraws(g, vaos, n) + [EndFrame]
  }

  /** One iteration of the main loop: checkState on every cell, x-major,
      then draw the board. */
  method Frame(b: Board, r: Renderer)
    requires b.Valid() && b.numCells == NumCells
    modifies b, b.cells, r
    ensures b.Valid()
    ensures b.aliveGrid == old(b.nextGrid)
    ensures b.nextGrid == PassNext(old(b.aliveGrid), old(b.nextGrid), NumCells)
    ensures r.events == old(r.events) + [BeginFrame] + GridDraws(b.aliveGrid, b.vaoGrid, NumCells) + [EndFrame]
  {
    b.UpdateState();
    b.Draw(r);
  }

  /** The main loop run for `frames` frames: the window-close poll that
      ends it is replaced by the number of frames it lasts. */
  method Run(b: Board, r: Renderer, frames: nat)
    requires b.Valid() && b.numCells == NumCells
    modifies b, b.cells, r
    ensures b.Valid()
    ensures (b.aliveGrid, b.nextGrid) == Generations(old(b.aliveGrid), old(b.nextGrid), NumCells, frames)
    ensures r.events == old(r.events) + FrameLog(old(b.aliveGrid), old(b.nextGrid), b.vaoGrid, NumCells, frames)
  {
    ghost var a, nx, log := b.aliveGrid, b.nextGrid, r.events;
    var k := 0;
    while k < frames
      invariant 0 <= k <= frames && b.Valid() && b.numCells == NumCells
      invariant (b.aliveGrid, b.nextGrid) == Generations(a, nx, NumCells, k)
      invariant r.events == log + FrameLog(a, nx, b.vaoGrid, NumCells, k)
    {
      ghost var before := r.events;
      Frame(b, r);
      assert Generations(a, nx, NumCells, k + 1) == (b.aliveGrid, b.nextGrid);
      FrameStep(log, before, r.events, a, nx, b.vaoGrid, NumCells, k);
      k := k + 1;
    }
  }

  /** A log that held the calls of the first k frames, and then received
      the calls of frame k + 1, holds the calls of the first k + 1. */
  lemma FrameStep(log: seq<Event>, before: seq<Event>, after: seq<Event>,
                  a: seq<seq<bool>>, nx: seq<seq<bool>>, vaos: seq<seq<int>>, n: nat, k: nat)
    requires IsGrid(a, n) && IsGrid(nx, n) && SameShape(a, vaos)
    requires before == log + FrameLog(a, nx, vaos, n, k)
    requires SameShape(Generations(a, nx, n, k + 1).0, vaos)
    requires after == before + [BeginFrame] + GridDraws(Generations(a, nx, n, k + 1).0, vaos, n) + [EndFrame]
    ensures after == log + FrameLog(a, nx, vaos, n, k + 1)
  {
    AppendFrame(log, FrameLog(a, nx, vaos, n, k), GridDraws(Generations(a, nx, n, k + 1).0, vaos, n));
  }

  /** Appending one frame's calls after a prefix of the log. */
  lemma AppendFrame(log: seq<Event>, frames: seq<Event>, draws: seq<Event>)
    ensures log + frames + [BeginFrame] + draws + [EndFrame] == log + (frames + [BeginFrame] + draws + [EndFrame])
  {
  }

  /** A board that is its own Life successor, started settled (alive and
      pending equal, as makeCells leaves it), stays as it is in every
      frame. */
  lemma {:induction false} SettledFixedPointStays(g: seq<seq<bool>>, n: nat, k: nat)
    requires IsGrid(g, n) && Step(g, n) == g
    ensures Generations(g, g, n, k) == (g, g)
  {
    if k > 0 {
      SettledFixedPointStays(g, n, k - 1);
      SettledPassIsStep(g, n);
    }
  }

  /** The all-dead board, and on a board of side at least 4 the block,
      never change however many frames run. */
  lemma StillLivesStay(n: nat, k: nat)
    ensures Generations(Uniform(n, false), Uniform(n, false), n, k) == (Uniform(n, false), Uniform(n, false))
    ensures n >= 4 ==> Generations(Block(n), Block(n), n, k) == (Block(n), Block(n))
  {
    AllDeadIsFixed(n);
    SettledFixedPointStays(Uniform(n, false), n, k);
    if n >= 4 {
      BlockIsFixed(n);
      SettledFixedPointStays(Block(n), n, k);
    }
  }

  /** From the full board makeCells can produce, the second frame commits
      the all-dead board but leaves (1, n - 1) pending alive, although the
      all-dead board has no successor but itself. */
  lemma SecondFrameRevives(n: nat)
    requires n >= 3
    ensures Generations(Uniform(n, true), Uniform(n, true), n, 2).0 == Uniform(n, false)
    ensures Generations(Uniform(n, true), Uniform(n, true), n, 2).1[1][n - 1]
    ensures Step(Uniform(n, false), n) == Uniform(n, false)
  {
    SecondPassDiverges(n);
    AllDeadIsFixed(n);
    var full, dead := Uniform(n, true), Uniform(n, false);
    assert Generations(full, full, n, 1) == (full, dead);
    assert Generations(full, full, n, 2) == (dead, PassNext(full, dead, n));
  }

  /** From the settled horizontal blinker, the first frame gives the
      vertical blinker, but the second frame leaves a pending board that
      is not the horizontal one: the blinker does not oscillate under the
      program's frames. */
  lemma SecondFrameBreaksBlinker(n: nat)
    requires n >= 5
    ensures Generations(Blinker(n, true), Blinker(n, true), n, 1) == (Blinker(n, true), Blinker(n, false))
    ensures Generations(Blinker(n, true), Blinker(n, true), n, 2).1 != Blinker(n, true)
  {
    var h := Blinker(n, true);
    TwoFrames(h, n);
    SecondPassBreaksBlinker(n);
    BlinkerCentreRow(n);
    DiffersAt(Generations(h, h, n, 2).1, h, n, 1, 2);
  }

  /** Boards that differ in one cell differ. */
  lemma DiffersAt(p: seq<seq<bool>>, q: seq<seq<bool>>, n: nat, i: int, j: int)
    requires IsGrid(p, n) && IsGrid(q, n) && 0 <= i < n && 0 <= j < n && p[i][j] != q[i][j]
    ensures p != q
  {
  }

  /** The first two frames from a settled board, unfolded. */
  lemma TwoFrames(g: seq<seq<bool>>, n: nat)
    requires IsGrid(g, n)
    ensures Generations(g, g, n, 1) == (g, PassNext(g, g, n))
    ensures Generations(g, g, n, 2) == (PassNext(g, g, n), PassNext(g, PassNext(g, g, n), n))
  {
  }
}
