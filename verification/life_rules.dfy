/** Pure specification of the Game of Life engine: the toroidal wrap, the
    eight-probe neighbour count, the B3/S23 rule, the standard successor of a
    board, and the successor that the single in-place pass really computes. */
module LifeRules {

  /** A square board of flags, n rows of n cells, indexed [x][y]. */
  predicate IsGrid(g: seq<seq<bool>>, n: nat) {
    |g| == n && forall x :: 0 <= x < n ==> |g[x]| == n
  }

  /** The edge correction of the `add` closure: n becomes 0 and -1 becomes
      n - 1 on one axis; any other index is used as it is. On every index a
      probe can produce it agrees with (Euclidean) arithmetic modulo n. */
  function Wrap(i: int, n: int): (r: int)
    ensures n >= 1 && -1 <= i <= n ==> 0 <= r < n
  {
    if i == n then 0 else if i == -1 then n - 1 else i
  }

  lemma WrapIsMod(i: int, n: int)
    requires n >= 1 && -1 <= i <= n
    ensures Wrap(i, n) == i % n
  {
  }

  /** One probe: 1 when the wrapped position holds a live cell. */
  function Probe(g: seq<seq<bool>>, n: nat, i: int, j: int): (r: nat)
    requires IsGrid(g, n) && n >= 1
    requires -1 <= i <= n && -1 <= j <= n
    ensures r <= 1
  {
    if g[Wrap(i, n)][Wrap(j, n)] then 1 else 0
  }

  /** The eight probes of `liveNeighbors`, in the order the source issues
      them: left, right, up, down, top-left, top-right, bottom-left,
      bottom-right. On boards of side 1 or 2 some positions are probed more
      than once, and each probe counts. */
  function NeighborCount(g: seq<seq<bool>>, n: nat, x: int, y: int): (r: nat)
    requires IsGrid(g, n) && 0 <= x < n && 0 <= y < n
    ensures r <= 8
  {
    Probe(g, n, x - 1, y) + Probe(g, n, x + 1, y) +
    Probe(g, n, x, y + 1) + Probe(g, n, x, y - 1) +
    Probe(g, n, x - 1, y + 1) + Probe(g, n, x + 1, y + 1) +
    Probe(g, n, x - 1, y - 1) + Probe(g, n, x + 1, y - 1)
  }

  /** 1 when the cell at (i mod n, j mod n) is live. */
  function TorusLive(g: seq<seq<bool>>, n: nat, i: int, j: int): (r: nat)
    requires IsGrid(g, n) && n >= 1
    ensures r <= 1
  {
    if g[i % n][j % n] then 1 else 0
  }

  /** Reference count on the torus: the Moore neighbourhood (the 3 x 3
      square around (x, y) without its centre) read row by row, each
      coordinate reduced modulo n. */
  function MooreCount(g: seq<seq<bool>>, n: nat, x: int, y: int): (r: nat)
    requires IsGrid(g, n) && n >= 1
    ensures r <= 8
  {
    TorusLive(g, n, x - 1, y - 1) + TorusLive(g, n, x - 1, y) + TorusLive(g, n, x - 1, y + 1) +
    TorusLive(g, n, x, y - 1) +                                  TorusLive(g, n, x, y + 1) +
    TorusLive(g, n, x + 1, y - 1) + TorusLive(g, n, x + 1, y) + TorusLive(g, n, x + 1, y + 1)
  }

  /** The B3/S23 rule: a live cell survives with two or three live
      neighbours, a dead cell comes alive with exactly three. */
  predicate LifeRule(alive: bool, count: int) {
    if alive then count == 2 || count == 3 else count == 3
  }

  /** The standard Life successor of a board: every cell decided from the
      same generation. */
  function Step(g: seq<seq<bool>>, n: nat): (r: seq<seq<bool>>)
    requires IsGrid(g, n)
    ensures IsGrid(r, n)
  {
    seq(n, x requires 0 <= x < n =>
      seq(n, y requires 0 <= y < n => LifeRule(g[x][y], NeighborCount(g, n, x, y))))
  }

  /** (i, j) is visited strictly before (x, y) by the x-major, then y, pass. */
  predicate Precedes(i: int, j: int, x: int, y: int) {
    i < x || (i == x && j < y)
  }

  /** The `alive` flags the single pass sees while it counts for (x, y):
      cells visited before (x, y), and (x, y) itself, have committed their
      pending state N; the rest still show the state A they had before the
      pass. */
  function Snapshot(a: seq<seq<bool>>, nx: seq<seq<bool>>, n: nat, x: int, y: int): (r: seq<seq<bool>>)
    requires IsGrid(a, n) && IsGrid(nx, n)
    ensures IsGrid(r, n)
  {
    seq(n, i requires 0 <= i < n =>
      seq(n, j requires 0 <= j < n =>
        if Precedes(i, j, x, y) || (i == x && j == y) then nx[i][j] else a[i][j]))
  }

  /** The pending (`aliveNext`) board the single in-place pass leaves, given
      the `alive` board A and the `aliveNext` board N it starts from. */
  function PassNext(a: seq<seq<bool>>, nx: seq<seq<bool>>, n: nat): (r: seq<seq<bool>>)
    requires IsGrid(a, n) && IsGrid(nx, n)
    ensures IsGrid(r, n)
  {
    seq(n, x requires 0 <= x < n =>
      seq(n, y requires 0 <= y < n =>
        LifeRule(nx[x][y], NeighborCount(Snapshot(a, nx, n, x, y), n, x, y))))
  }

  /** Two boards of the same shape that agree cell by cell are equal. */
  lemma SameGrid(a: seq<seq<bool>>, b: seq<seq<bool>>, n: nat)
    requires IsGrid(a, n) && IsGrid(b, n)
    requires forall x, y :: 0 <= x < n && 0 <= y < n ==> a[x][y] == b[x][y]
    ensures a == b
  {
    forall x | 0 <= x < n
      ensures a[x] == b[x]
    {
      assert forall y :: 0 <= y < n ==> a[x][y] == b[x][y];
    }
  }

  /** A board m part-way through a pass that replaces `before` by `after`
      cell by cell, just before the pass visits (x, y): the cells visited so
      far hold their `after` value, the others their `before` value. */
  ghost predicate Mixed(m: seq<seq<bool>>, before: seq<seq<bool>>, after: seq<seq<bool>>, n: nat, x: int, y: int) {
    IsGrid(m, n) && IsGrid(before, n) && IsGrid(after, n) &&
    forall i, j {:trigger m[i][j]} :: 0 <= i < n && 0 <= j < n ==>
      m[i][j] == (if Precedes(i, j, x, y) then after[i][j] else before[i][j])
  }

  /** Before the pass no cell has been visited. */
  lemma MixedBegins(before: seq<seq<bool>>, after: seq<seq<bool>>, n: nat)
    requires IsGrid(before, n) && IsGrid(after, n)
    ensures Mixed(before, before, after, n, 0, 0)
  {
  }

  /** Visiting (x, y) gives it its `after` value; then (x, y) counts as
      visited. */
  lemma MixedVisit(m: seq<seq<bool>>, before: seq<seq<bool>>, after: seq<seq<bool>>, n: nat, x: int, y: int)
    requires 0 <= x < n && 0 <= y < n && Mixed(m, before, after, n, x, y)
    ensures Mixed(m[x := m[x][y := after[x][y]]], before, after, n, x, y + 1)
  {
    var m' := m[x := m[x][y := after[x][y]]];
    forall i, j | 0 <= i < n && 0 <= j < n
      ensures m'[i][j] == (if Precedes(i, j, x, y + 1) then after[i][j] else before[i][j])
    {
      assert m[i][j] == (if Precedes(i, j, x, y) then after[i][j] else before[i][j]);
    }
  }

  /** Finishing row x is starting row x + 1. */
  lemma MixedRowDone(m: seq<seq<bool>>, before: seq<seq<bool>>, after: seq<seq<bool>>, n: nat, x: int)
    requires Mixed(m, before, after, n, x, n)
    ensures Mixed(m, before, after, n, x + 1, 0)
  {
  }

  /** After the last row every cell holds its `after` value. */
  lemma MixedEnds(m: seq<seq<bool>>, before: seq<seq<bool>>, after: seq<seq<bool>>, n: nat)
    requires Mixed(m, before, after, n, n, 0)
    ensures m == after
  {
    SameGrid(m, after, n);
  }

  /** The boards (ag, ng) of `alive` and `aliveNext` flags part-way through
      the single pass, just before it visits (x, y): the cells visited so
      far hold their committed state N and their new pending state W, every
      other cell the states A and N it had before the pass. */
  ghost predicate PassAt(ag: seq<seq<bool>>, ng: seq<seq<bool>>, a: seq<seq<bool>>, nx: seq<seq<bool>>,
                         want: seq<seq<bool>>, n: nat, x: int, y: int) {
    Mixed(ag, a, nx, n, x, y) && Mixed(ng, nx, want, n, x, y)
  }

  /** Committing the pending state of (x, y) turns the board part-way
      through the pass into exactly the snapshot the count at (x, y)
      reads. */
  lemma CommitIsSnapshot(ag: seq<seq<bool>>, ng: seq<seq<bool>>, a: seq<seq<bool>>, nx: seq<seq<bool>>,
                         want: seq<seq<bool>>, n: nat, x: int, y: int)
    requires 0 <= x < n && 0 <= y < n && PassAt(ag, ng, a, nx, want, n, x, y)
    ensures ag[x := ag[x][y := ng[x][y]]] == Snapshot(a, nx, n, x, y)
  {
    var committed, snap := ag[x := ag[x][y := ng[x][y]]], Snapshot(a, nx, n, x, y);
    forall i, j | 0 <= i < n && 0 <= j < n
      ensures committed[i][j] == snap[i][j]
    {
      assert ag[i][j] == (if Precedes(i, j, x, y) then nx[i][j] else a[i][j]);
    }
    SameGrid(committed, snap, n);
  }

  /** A whole visit of (x, y) by the single pass: its `alive` flag takes
      its pending state (giving ag'), and its pending state becomes the
      rule applied to its count on ag', the board as it then stands
      (giving ng'). The new pending value is W at (x, y), and afterwards
      (x, y) counts as visited. */
  lemma PassStep(ag: seq<seq<bool>>, ng: seq<seq<bool>>, a: seq<seq<bool>>, nx: seq<seq<bool>>,
                 want: seq<seq<bool>>, n: nat, x: int, y: int, ag': seq<seq<bool>>, ng': seq<seq<bool>>)
    requires 0 <= x < n && 0 <= y < n && PassAt(ag, ng, a, nx, want, n, x, y)
    requires want == PassNext(a, nx, n)
    requires ag' == ag[x := ag[x][y := ng[x][y]]] && IsGrid(ag', n)
    requires ng' == ng[x := ng[x][y := LifeRule(ng[x][y], NeighborCount(ag', n, x, y))]]
    ensures PassAt(ag', ng', a, nx, want, n, x, y + 1)
  {
    CommitIsSnapshot(ag, ng, a, nx, want, n, x, y);
    assert ng[x][y] == nx[x][y];
    PassNextAt(a, nx, n, x, y);
    MixedVisit(ag, a, nx, n, x, y);
    MixedVisit(ng, nx, want, n, x, y);
  }

  /** One cell of the single pass's pending board. */
  lemma PassNextAt(a: seq<seq<bool>>, nx: seq<seq<bool>>, n: nat, x: int, y: int)
    requires IsGrid(a, n) && IsGrid(nx, n) && 0 <= x < n && 0 <= y < n
    ensures PassNext(a, nx, n)[x][y] == LifeRule(nx[x][y], NeighborCount(Snapshot(a, nx, n, x, y), n, x, y))
  {
  }

  /** A visit of (x, y) by the decide phase of the two-phase update: its
      pending state becomes the rule applied to its count on the committed
      board G (giving m'), which is the successor of G at (x, y); afterwards
      (x, y) counts as visited. */
  lemma DecideStep(m: seq<seq<bool>>, g: seq<seq<bool>>, want: seq<seq<bool>>, n: nat, x: int, y: int, m': seq<seq<bool>>)
    requires 0 <= x < n && 0 <= y < n && Mixed(m, g, want, n, x, y)
    requires want == Step(g, n)
    requires m' == m[x := m[x][y := LifeRule(g[x][y], NeighborCount(g, n, x, y))]]
    ensures Mixed(m', g, want, n, x, y + 1)
  {
    StepAt(g, n, x, y);
    MixedVisit(m, g, want, n, x, y);
  }

  /** The eight wrapped probes count exactly the live cells of the Moore
      neighbourhood on the torus (with multiplicity when n <= 2). */
  lemma NeighborCountIsMooreCount(g: seq<seq<bool>>, n: nat, x: int, y: int)
    requires IsGrid(g, n) && 0 <= x < n && 0 <= y < n
    ensures NeighborCount(g, n, x, y) == MooreCount(g, n, x, y)
  {
    ProbeIsTorusLive(g, n, x - 1, y); ProbeIsTorusLive(g, n, x + 1, y);
    ProbeIsTorusLive(g, n, x, y + 1); ProbeIsTorusLive(g, n, x, y - 1);
    ProbeIsTorusLive(g, n, x - 1, y + 1); ProbeIsTorusLive(g, n, x + 1, y + 1);
    ProbeIsTorusLive(g, n, x - 1, y - 1); ProbeIsTorusLive(g, n, x + 1, y - 1);
  }

  /** One probe reads the cell at its coordinates modulo n. */
  lemma ProbeIsTorusLive(g: seq<seq<bool>>, n: nat, i: int, j: int)
    requires IsGrid(g, n) && n >= 1 && -1 <= i <= n && -1 <= j <= n
    ensures Probe(g, n, i, j) == TorusLive(g, n, i, j)
  {
    WrapIsMod(i, n);
    WrapIsMod(j, n);
  }

  /** On a 1 x 1 board all eight probes hit the cell itself. */
  lemma SingleCellBoard(g: seq<seq<bool>>)
    requires IsGrid(g, 1)
    ensures NeighborCount(g, 1, 0, 0) == if g[0][0] then 8 else 0
  {
  }

  /** On a 2 x 2 board each edge neighbour is probed twice and the diagonal
      one four times. */
  lemma TwoByTwoBoard(g: seq<seq<bool>>, x: int, y: int)
    requires IsGrid(g, 2) && 0 <= x < 2 && 0 <= y < 2
    ensures NeighborCount(g, 2, x, y) ==
      2 * TorusLive(g, 2, 1 - x, y) + 2 * TorusLive(g, 2, x, 1 - y) + 4 * TorusLive(g, 2, 1 - x, 1 - y)
  {
  }

  /** When every cell's pending state equals its current state (as right
      after construction), the single pass computes the standard successor:
      every snapshot it reads is the board itself. */
  lemma SettledPassIsStep(g: seq<seq<bool>>, n: nat)
    requires IsGrid(g, n)
    ensures PassNext(g, g, n) == Step(g, n)
  {
    forall x, y | 0 <= x < n && 0 <= y < n
      ensures PassNext(g, g, n)[x][y] == Step(g, n)[x][y]
    {
      PassNextAt(g, g, n, x, y);
      SettledSnapshot(g, n, x, y);
      StepAt(g, n, x, y);
    }
    SameGrid(PassNext(g, g, n), Step(g, n), n);
  }

  /** With nothing pending that differs from the board, every snapshot is
      the board itself. */
  lemma SettledSnapshot(g: seq<seq<bool>>, n: nat, x: int, y: int)
    requires IsGrid(g, n)
    ensures Snapshot(g, g, n, x, y) == g
  {
    SameGrid(Snapshot(g, g, n, x, y), g, n);
  }

  /** A board whose every cell holds v. */
  function Uniform(n: nat, v: bool): (r: seq<seq<bool>>)
    ensures IsGrid(r, n)
  {
    seq(n, x => seq(n, y => v))
  }

  /** The all-dead board is a fixed point of Life. */
  lemma AllDeadIsFixed(n: nat)
    ensures Step(Uniform(n, false), n) == Uniform(n, false)
  {
    var g := Uniform(n, false);
    forall x, y | 0 <= x < n && 0 <= y < n
      ensures Step(g, n)[x][y] == g[x][y]
    {
      assert NeighborCount(g, n, x, y) == 0;
    }
    SameGrid(Step(g, n), g, n);
  }

  /** The block still life: the 2 x 2 square at (0, 0), (0, 1), (1, 0), (1, 1). */
  function Block(n: nat): (r: seq<seq<bool>>)
    ensures IsGrid(r, n)
  {
    seq(n, x => seq(n, y => 0 <= x <= 1 && 0 <= y <= 1))
  }

  /** On a board of side at least 4 the block is a fixed point of Life,
      across the wrapped edges as well. */
  lemma BlockIsFixed(n: nat)
    requires n >= 4
    ensures Step(Block(n), n) == Block(n)
  {
    var g := Block(n);
    forall x, y | 0 <= x < n && 0 <= y < n
      ensures Step(g, n)[x][y] == g[x][y]
    {
      StepAt(g, n, x, y);
      BlockCount(n, x, y);
    }
    SameGrid(Step(g, n), g, n);
  }

  /** Each of the block's four cells has exactly three live neighbours,
      and no other cell more than two. */
  lemma BlockCount(n: nat, x: int, y: int)
    requires n >= 4 && 0 <= x < n && 0 <= y < n
    ensures Block(n)[x][y] ==> NeighborCount(Block(n), n, x, y) == 3
    ensures !Block(n)[x][y] ==> NeighborCount(Block(n), n, x, y) <= 2
  {
  }

  /** The blinker: three live cells in a line through (2, 2), along x when
      horizontal and along y otherwise. */
  function Blinker(n: nat, horizontal: bool): (r: seq<seq<bool>>)
    ensures IsGrid(r, n)
  {
    seq(n, x => seq(n, y => OnBlinker(horizontal, x, y)))
  }

  /** On a board of side at least 5 the blinker turns over every generation
      and so has period 2. */
  lemma BlinkerOscillates(n: nat, horizontal: bool)
    requires n >= 5
    ensures Step(Blinker(n, horizontal), n) == Blinker(n, !horizontal)
    ensures Step(Step(Blinker(n, horizontal), n), n) == Blinker(n, horizontal)
  {
    BlinkerTurns(n, horizontal);
    BlinkerTurns(n, !horizontal);
  }

  /** A line of three along x (horizontal) or along y through (2, 2). */
  predicate OnBlinker(horizontal: bool, i: int, j: int) {
    if horizontal then j == 2 && 1 <= i <= 3 else i == 2 && 1 <= j <= 3
  }

  lemma BlinkerProbe(n: nat, horizontal: bool, i: int, j: int)
    requires n >= 5 && -1 <= i <= n && -1 <= j <= n
    ensures Probe(Blinker(n, horizontal), n, i, j) == OnBlinkerCount(horizontal, i, j)
  {
  }

  function OnBlinkerCount(horizontal: bool, i: int, j: int): (r: nat) {
    if OnBlinker(horizontal, i, j) then 1 else 0
  }

  /** The blinker's neighbour counts, as plain arithmetic on the plane. */
  lemma BlinkerRule(horizontal: bool, x: int, y: int)
    ensures LifeRule(OnBlinker(horizontal, x, y),
      OnBlinkerCount(horizontal, x - 1, y) + OnBlinkerCount(horizontal, x + 1, y) +
      OnBlinkerCount(horizontal, x, y + 1) + OnBlinkerCount(horizontal, x, y - 1) +
      OnBlinkerCount(horizontal, x - 1, y + 1) + OnBlinkerCount(horizontal, x + 1, y + 1) +
      OnBlinkerCount(horizontal, x - 1, y - 1) + OnBlinkerCount(horizontal, x + 1, y - 1))
      == OnBlinker(!horizontal, x, y)
  {
  }

  /** The rule applied to a board whose probes all agree with the blinker's
      line: only the eight probes matter, not the board's other cells. */
  lemma BlinkerCell(g: seq<seq<bool>>, n: nat, horizontal: bool, x: int, y: int)
    requires IsGrid(g, n) && n >= 5 && 0 <= x < n && 0 <= y < n
    requires forall i, j :: -1 <= i <= n && -1 <= j <= n ==>
      Probe(g, n, i, j) == OnBlinkerCount(horizontal, i, j)
    ensures LifeRule(g[x][y], NeighborCount(g, n, x, y)) == OnBlinker(!horizontal, x, y)
  {
    assert Probe(g, n, x, y) == OnBlinkerCount(horizontal, x, y);
    BlinkerRule(horizontal, x, y);
  }

  lemma BlinkerTurns(n: nat, horizontal: bool)
    requires n >= 5
    ensures Step(Blinker(n, horizontal), n) == Blinker(n, !horizontal)
  {
    var g := Blinker(n, horizontal);
    forall i, j | -1 <= i <= n && -1 <= j <= n
      ensures Probe(g, n, i, j) == OnBlinkerCount(horizontal, i, j)
    {
      BlinkerProbe(n, horizontal, i, j);
    }
    StepOfBlinkerLike(g, n, horizontal);
  }

  lemma StepOfBlinkerLike(g: seq<seq<bool>>, n: nat, horizontal: bool)
    requires IsGrid(g, n) && n >= 5
    requires forall i, j :: -1 <= i <= n && -1 <= j <= n ==>
      Probe(g, n, i, j) == OnBlinkerCount(horizontal, i, j)
    ensures Step(g, n) == Blinker(n, !horizontal)
  {
    var h := Blinker(n, !horizontal);
    forall x, y | 0 <= x < n && 0 <= y < n
      ensures Step(g, n)[x][y] == h[x][y]
    {
      StepAt(g, n, x, y);
      BlinkerCell(g, n, horizontal, x, y);
    }
    SameGrid(Step(g, n), h, n);
  }

  /** On a board where every cell holds v, every count is 8 or 0. */
  lemma UniformCount(g: seq<seq<bool>>, n: nat, v: bool, x: int, y: int)
    requires IsGrid(g, n) && 0 <= x < n && 0 <= y < n
    requires forall i, j :: 0 <= i < n && 0 <= j < n ==> g[i][j] == v
    ensures NeighborCount(g, n, x, y) == if v then 8 else 0
  {
  }

  /** On a full board every cell sees eight live neighbours and dies. */
  lemma AllAliveDies(n: nat)
    ensures Step(Uniform(n, true), n) == Uniform(n, false)
  {
    var g := Uniform(n, true);
    forall x, y | 0 <= x < n && 0 <= y < n
      ensures Step(g, n)[x][y] == false
    {
      FullCellDies(g, n, x, y);
    }
    SameGrid(Step(g, n), Uniform(n, false), n);
  }

  /** A cell whose whole board is live sees eight live neighbours, and
      dies. */
  lemma FullCellDies(g: seq<seq<bool>>, n: nat, x: int, y: int)
    requires IsGrid(g, n) && 0 <= x < n && 0 <= y < n
    requires forall i, j :: 0 <= i < n && 0 <= j < n ==> g[i][j]
    ensures !Step(g, n)[x][y]
  {
    UniformCount(g, n, true, x, y);
    StepAt(g, n, x, y);
  }

  /** A cell of the successor is the rule applied to that cell. */
  lemma StepAt(g: seq<seq<bool>>, n: nat, x: int, y: int)
    requires IsGrid(g, n) && 0 <= x < n && 0 <= y < n
    ensures Step(g, n)[x][y] == LifeRule(g[x][y], NeighborCount(g, n, x, y))
  {
  }

  /** Every cell of the successor follows B3/S23 on the live cells of its
      Moore neighbourhood on the torus. */
  lemma StepIsMooreRule(g: seq<seq<bool>>, n: nat, x: int, y: int)
    requires IsGrid(g, n) && 0 <= x < n && 0 <= y < n
    ensures Step(g, n)[x][y] == LifeRule(g[x][y], MooreCount(g, n, x, y))
  {
    StepAt(g, n, x, y);
    NeighborCountIsMooreCount(g, n, x, y);
  }

  /** The single pass, run a second time, does not compute the Life
      successor. Start from a full board of side n >= 3 (alive and pending
      both all live, as after construction). The first pass leaves alive
      all live and pending all dead, which is the Life successor. The
      second pass reaches cell (1, n - 1) after rows 0 and 1 have committed
      "dead" but before row 2 has: it sees exactly three live neighbours,
      all in row 2, and comes alive, while the Life successor of the
      all-dead board is all dead. */
  lemma SecondPassDiverges(n: nat)
    requires n >= 3
    ensures PassNext(Uniform(n, true), Uniform(n, true), n) == Uniform(n, false)
    ensures PassNext(Uniform(n, true), Uniform(n, false), n)[1][n - 1]
    ensures !Step(Uniform(n, false), n)[1][n - 1]
  {
    SettledPassIsStep(Uniform(n, true), n);
    AllAliveDies(n);
    AllDeadIsFixed(n);
    SecondPassBirth(Uniform(n, true), Uniform(n, false), n);
  }

  /** The blinker shows the same divergence. From the horizontal blinker,
      settled, the first pass computes the vertical one. The second pass
      reaches (1, 2) when every visited cell shows the vertical blinker,
      which has no live cell among (1, 2)'s visited neighbours, and every
      other cell still shows the horizontal one: it counts only (2, 2) and
      stays dead, while the Life successor of the vertical blinker has
      (1, 2) alive. */
  lemma SecondPassBreaksBlinker(n: nat)
    requires n >= 5
    ensures PassNext(Blinker(n, true), Blinker(n, true), n) == Blinker(n, false)
    ensures !PassNext(Blinker(n, true), Blinker(n, false), n)[1][2]
    ensures Step(Blinker(n, false), n)[1][2]
  {
    BlinkerFirstPass(n);
    BlinkerStaysDead(n);
    BlinkerBorn(n);
  }

  /** The first pass from the settled horizontal blinker is Step. */
  lemma BlinkerFirstPass(n: nat)
    requires n >= 5
    ensures PassNext(Blinker(n, true), Blinker(n, true), n) == Blinker(n, false)
  {
    SettledPassIsStep(Blinker(n, true), n);
    BlinkerTurns(n, true);
  }

  /** Life brings (1, 2) to life from the vertical blinker. */
  lemma BlinkerBorn(n: nat)
    requires n >= 5
    ensures Step(Blinker(n, false), n)[1][2]
  {
    BlinkerTurns(n, false);
    BlinkerCentreRow(n);
  }

  /** (1, 2) is a cell of the horizontal blinker. */
  lemma BlinkerCentreRow(n: nat)
    requires n >= 5
    ensures Blinker(n, true)[1][2]
  {
  }

  /** The second pass leaves (1, 2) dead. */
  lemma BlinkerStaysDead(n: nat)
    requires n >= 5
    ensures !PassNext(Blinker(n, true), Blinker(n, false), n)[1][2]
  {
    var h, v := Blinker(n, true), Blinker(n, false);
    BlinkerSnapshot(n);
    CountAtOneTwo(Snapshot(h, v, n, 1, 2), n);
    PassNextAt(h, v, n, 1, 2);
    assert !v[1][2];
  }

  /** What the second pass sees at (1, 2): visited cells show the vertical
      blinker (none of them live), the others the horizontal one. */
  lemma BlinkerSnapshot(n: nat)
    requires n >= 5
    ensures forall i, j :: 0 <= i < n && 0 <= j < n ==>
      Snapshot(Blinker(n, true), Blinker(n, false), n, 1, 2)[i][j] == (j == 2 && 2 <= i <= 3)
  {
    var h, v := Blinker(n, true), Blinker(n, false);
    forall i, j | 0 <= i < n && 0 <= j < n
      ensures Snapshot(h, v, n, 1, 2)[i][j] == (j == 2 && 2 <= i <= 3)
    {
      assert h[i][j] == OnBlinker(true, i, j) && v[i][j] == OnBlinker(false, i, j);
    }
  }

  lemma CountAtOneTwo(s: seq<seq<bool>>, n: nat)
    requires n >= 5 && IsGrid(s, n)
    requires forall i, j :: 0 <= i < n && 0 <= j < n ==> s[i][j] == (j == 2 && 2 <= i <= 3)
    ensures NeighborCount(s, n, 1, 2) == 1
  {
  }

  lemma SecondPassBirth(a: seq<seq<bool>>, nx: seq<seq<bool>>, n: nat)
    requires n >= 3 && IsGrid(a, n) && IsGrid(nx, n)
    requires forall i, j :: 0 <= i < n && 0 <= j < n ==> a[i][j] && !nx[i][j]
    ensures PassNext(a, nx, n)[1][n - 1]
  {
    var s := Snapshot(a, nx, n, 1, n - 1);
    assert forall i, j :: 0 <= i < n && 0 <= j < n ==> s[i][j] == (i >= 2);
    CountRowTwo(s, n);
  }

  lemma CountRowTwo(s: seq<seq<bool>>, n: nat)
    requires n >= 3 && IsGrid(s, n)
    requires forall i, j :: 0 <= i < n && 0 <= j < n ==> s[i][j] == (i >= 2)
    ensures NeighborCount(s, n, 1, n - 1) == 3
  {
  }
}
