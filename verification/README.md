# go-life engine in Dafny

A model of the cellular-automaton engine of go-life, a Conway's Game of Life
program in Go. The board is square and toroidal. Every cell holds two flags:
`alive`, the state shown and read by the neighbour counts, and `aliveNext`,
the state computed for the next generation.

`UpdateState` walks the grid once, x-major and then y. On each cell it runs
`checkState`, which:
1. commits `alive := aliveNext`;
2. counts the live cells among the eight wrapped neighbours;
3. sets `aliveNext` by the B3/S23 rule.

`Draw` brackets a frame with the renderer's `PreDraw`/`PostDraw` and draws
each live cell's quad. `main.go` holds an earlier copy of the same engine with
a fixed side of 64 and its own frame loop.

Files:

- `life_rules.dfy` (module `LifeRules`): the specification on plain values.
  - It defines the wrap, the eight probes (`NeighborCount`), a reference
    Moore count modulo n, the rule, and the standard successor `Step`.
  - `PassNext` is the pending board the single in-place pass computes. Its
    counts read `Snapshot`s that mix the two generations.
  - `Mixed` is the loop invariant of a pass that visits cells one by one.
  - It also holds the lemmas about fixed points, the blinker and the
    divergence of the single pass.
- `render.dfy` (module `Render`): the renderer as a log of calls. It also
  defines the calls a frame should make (`RowDraws`, `GridDraws`) and proves
  that these are one draw per live cell.
- `cells.dfy` (module `Cells`): `cells/cell.go` and `cells/board.go` as
  classes.
  - A `Cell` has `const` coordinates and handle, and mutable `alive` and
    `aliveNext`.
  - A `Board` has a `const` grid of cells. Its ghost fields `aliveGrid`,
    `nextGrid` and `vaoGrid` are the boards of the cells' fields, and
    `Valid()` couples them to the cells.
  - The pass, count and draw methods are proved against the functions of
    `LifeRules` and `Render`. The constructors and `Commit` are stated against
    the seed and the ghost boards.
- `main_loop.dfy` (module `MainLoop`): `main.go`.
  - It covers `makeCells` with `numCells = 64` and one iteration of the main
    loop.
  - It also covers the loop run for a given number of frames, specified by
    `Generations` and `FrameLog`.

## Model

| member | source | states |
|---|---|---|
| LifeRules.Wrap | cells/cell.go:92-101 | n maps to 0, -1 maps to n - 1, any other index is kept; for n >= 1 every index a probe produces (-1..n) lands in [0, n) |
| LifeRules.WrapIsMod | cells/cell.go:92-101 | on the indices a probe produces, the edge correction equals arithmetic modulo n |
| LifeRules.Probe | cells/cell.go:102-104 | one `add` call counts 0 or 1, reading only the `alive` flag at the wrapped position |
| LifeRules.NeighborCount | cells/cell.go:107-114 | the eight probes in source order, summed; the count is at most 8 |
| LifeRules.NeighborCountIsMooreCount | cells/cell.go:88-117 | the eight wrapped probes count exactly the live cells of the Moore neighbourhood on the torus (coordinates mod n) |
| LifeRules.SingleCellBoard | cells/cell.go:107-114 | on a 1 x 1 board all eight probes hit the cell itself: the count is 8 or 0 |
| LifeRules.TwoByTwoBoard | cells/cell.go:107-114 | on a 2 x 2 board each edge neighbour is counted twice and the diagonal one four times |
| LifeRules.PassStep | cells/board.go:31-34 | visiting (x, y) commits N[x][y] and sets the pending state by the rule on the board as it then stands, which is PassNext at (x, y); afterwards (x, y) counts as visited |
| LifeRules.CommitIsSnapshot | cells/cell.go:73 | once (x, y) has committed, the board part-way through the pass is exactly the snapshot its count reads: visited cells show their committed state, the rest their state from before the pass |
| LifeRules.MixedVisit | cells/board.go:31-34 | visiting the next cell in x-major order extends the visited region by exactly that cell |
| LifeRules.MixedEnds | cells/board.go:31-35 | after the last row every cell holds its new value |
| LifeRules.SettledPassIsStep | cells/board.go:30-36 | when alive equals aliveNext everywhere (as after construction), the single pass's new pending board is the standard Life successor |
| LifeRules.StepIsMooreRule | cells/cell.go:75-84 | every cell of the successor follows B3/S23 on the number of live cells in its Moore neighbourhood on the torus, the reference count independent of the eight probes |
| LifeRules.AllDeadIsFixed | cells/cell.go:75-84 | the all-dead board is its own successor |
| LifeRules.BlockIsFixed | cells/cell.go:75-84 | on a board of side >= 4 the 2 x 2 block is its own successor, across the wrapped edges too |
| LifeRules.BlockCount | cells/cell.go:107-114 | each block cell has exactly three live neighbours and every other cell at most two |
| LifeRules.BlinkerOscillates | cells/cell.go:75-84 | on a board of side >= 5 the blinker turns over every generation of the Life successor `Step` (which `Cells.Board.UpdateStateTwoPhase` computes) and returns after two; the program's single pass does not keep this from its second pass on (see `SecondPassBreaksBlinker`) |
| LifeRules.AllAliveDies | cells/cell.go:76-79 | on a full board every cell sees eight live neighbours and dies |
| LifeRules.FullCellDies | cells/cell.go:76-79 | a cell of a full board is dead in the successor |
| LifeRules.UniformCount | cells/cell.go:107-114 | on a uniform board every count is 8 or 0 |
| LifeRules.SecondPassDiverges | cells/board.go:30-36 | from a full board, the first pass computes the successor (all dead), but the second pass marks (1, n - 1) to be born, while the all-dead board's successor is all dead |
| LifeRules.SecondPassBirth | cells/cell.go:73 | with rows 0 and 1 committed dead and row 2 still live, the count at (1, n - 1) is 3 |
| LifeRules.SecondPassBreaksBlinker | cells/board.go:30-36 | from the settled horizontal blinker (side >= 5) the first pass computes the vertical blinker, but the second pass leaves (1, 2) dead, counting only (2, 2), while the Life successor of the vertical blinker has (1, 2) alive |
| Render.Renderer.PreDraw | opengl/opengl.go:64-67 | appends exactly the frame-start call |
| Render.Renderer.DrawVAO | opengl/opengl.go:59-62 | appends one draw of the given handle with size / 3 vertices, truncated toward zero |
| Render.Renderer.PostDraw | opengl/opengl.go:69-72 | appends exactly the frame-end call |
| Render.RowDrawsExact | cells/cell.go:64-69 | a row issues exactly one draw per live cell, each of a live cell's handle with six vertices, and every live cell's handle is drawn |
| Render.GridDrawsExact | cells/board.go:41-45 | the whole board issues exactly one draw per live cell and none for dead cells |
| Cells.Cell.constructor | cells/cell.go:52-60 | coordinates and handle as given; alive and aliveNext both equal to the seed value (main.go:127-135 sets the same fields in newCell) |
| Cells.Cell.Draw | cells/cell.go:64-69 | a dead cell appends nothing; a live one appends one draw of its handle with 6 vertices (main.go:72-79 is the same code) |
| Cells.Cell.CheckState | cells/cell.go:72-85 | alive becomes the old aliveNext; aliveNext becomes the B3/S23 rule on the committed state and the count on the board as it now is; the board's flags change at (x, y) only, and the board stays valid (main.go:139-152 is the same code) |
| Cells.Cell.Commit | cells/cell.go:73 | alive becomes aliveNext; aliveNext and the pending board are unchanged |
| Cells.Cell.Decide | cells/cell.go:75-84 | with aliveNext equal to alive, aliveNext becomes exactly LifeRule(alive, count): death below 2 or above 3 when alive, birth at exactly 3 when dead, otherwise kept |
| Cells.Cell.LiveNeighbors | cells/cell.go:88-117 | returns NeighborCount on the current alive board, so a value in 0..8; it modifies nothing (main.go:155-185 is the same code, wrapping at the constant 64, which MainLoop requires as the board side) |
| Cells.Add | cells/cell.go:90-105 | adds 1 to the running count exactly when the wrapped position holds a live cell |
| Cells.Board.constructor | cells/board.go:14-28 | numCells rows of numCells fresh cells, grid[x][y] at coordinates (x, y), alive and aliveNext both equal to the seed |
| Cells.Board.UpdateState | cells/board.go:30-36 | every cell's alive becomes its old aliveNext, and the pending board becomes PassNext, the order-dependent single-pass result |
| Cells.Board.UpdateRow | cells/board.go:32-34 | the inner loop visits row x in y order and keeps the pass invariant |
| Cells.Board.Visit | cells/board.go:33 | CheckState on (x, y) moves the pass invariant on by exactly that cell, its new pending value being PassNext at (x, y) |
| Cells.Board.UpdateStateTwoPhase | cells/board.go:30-36 | corrected pass: every cell's alive becomes its old aliveNext, and the pending board becomes the Life successor of that committed board |
| Cells.Board.Draw | cells/board.go:38-48 | exactly one PreDraw, then one draw per live cell in x-major order, then one PostDraw (main.go:81-93 is the same frame) |
| Cells.Board.DrawRow | cells/board.go:42-44 | the cells of row x draw in y order: exactly RowDraws of that row, one draw per live cell |
| MainLoop.MakeCells | main.go:95-104 | a 64 x 64 board, cells[x][y] at (x, y), alive and aliveNext equal to the seed |
| MainLoop.Frame | main.go:62-67 | one frame: the single pass (as UpdateState), then the draw calls of the newly committed board |
| MainLoop.Run | main.go:60-69 | after k frames the boards are Generations(k) and the renderer received FrameLog(k) |
| MainLoop.SettledFixedPointStays | main.go:60-69 | a settled board that is its own successor stays unchanged in every frame |
| MainLoop.StillLivesStay | main.go:60-69 | the all-dead board and the block (side >= 4) never change, however many frames run |
| MainLoop.SecondFrameRevives | main.go:62-66 | from a full board, the second frame commits all dead but leaves (1, n - 1) pending alive |
| MainLoop.SecondFrameBreaksBlinker | main.go:62-66 | from the settled horizontal blinker the first frame leaves the vertical blinker pending, but after the second frame the pending board is not the horizontal blinker: the blinker does not oscillate under the program's frames |

## Left out

- Screen geometry: `InitCell` and `newCell` compute each quad's vertices in float32. The model takes each cell's vertex-array handle as a parameter (`vaos`), an integer whose value nothing inspects.
- Random seeding: the threshold draws (`rand.Float32`, `rand.Float64`, `rand.Seed`) become the `seed` board parameter.
- OpenGL and GLFW are reduced to a log of `PreDraw`, `DrawVAO` and `PostDraw` calls. Window creation, shader compilation, VAO upload (`MakeVao`), `Size`, `Init`, `Close` and `IsActive` are not modelled. The shader file reader in `shader/shader.go` is not part of this model.
- The frame loop's pacing (`time.Sleep`) is left out, and so are `runtime.LockOSThread` and the window-close poll. `MainLoop.Run` takes the number of frames instead.
- The Cell-to-Board back-pointer: cells receive the board explicitly.
- Integer widths: the handle is a `uint32` in Go, and the vertex count an `int32` conversion. Both are unbounded integers here. The values involved (handles, 18 / 3) are small.
- Board sizes: `MakeBoard` with a negative size panics in Go. The model's board side is a `nat`.
- `Cells.Board.constructor` also stands for `main.go`'s `makeCells`. `MainLoop.MakeCells` calls it with 64, because the two loops are the same.
- `Cells.Cell.LiveNeighbors`: main.go's copy wraps with the global constant 64, not the board's own side. The model reads the board's side and requires it to be 64 in `MainLoop`.

## Findings

| source | as written | input that shows it | evidently intended | confidence | as-written member | corrected member |
|---|---|---|---|---|---|---|
| cells/board.go:30-36 | one in-place pass. Each cell commits `alive := aliveNext` and then counts its neighbours, so a count sees the already-visited neighbours in the new generation and the rest in the old one | a full board of side n >= 3, after its first update (alive all live, pending all dead). The second update visits (1, n - 1) after rows 0 and 1 have committed "dead" and before row 2 has. It counts three live neighbours, all in row 2, and marks the cell to be born. The successor of the all-dead board is all dead. | every count reads the same generation: commit all cells, then decide all cells, so that the pending board is the Life successor of the committed one | not executed | LifeRules.SecondPassDiverges | Cells.Board.UpdateStateTwoPhase |

`MainLoop.SecondFrameRevives` states the same divergence for two frames of
`main.go`'s loop (main.go:62-66), which has the same single pass. The blinker
shows it too. `LifeRules.SecondPassBreaksBlinker` proves that the second pass
from the horizontal blinker leaves (1, 2) dead where Life brings it to life.
`MainLoop.SecondFrameBreaksBlinker` proves that under the program's frames the
blinker does not return after two generations.
`LifeRules.SettledPassIsStep` shows that the two updates agree on the first
pass after construction.
