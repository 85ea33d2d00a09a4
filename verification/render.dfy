/** The part of the OpenGL wrapper the engine talks to, reduced to a log of
    the calls it receives, and the sequence of calls one frame should make. */
module Render {

  /** A call on the renderer: the start of a frame (clear, bind the
      program), one DrawArrays of a vertex array object, or the end of a
      frame (poll events, swap buffers). */
  datatype Event = BeginFrame | DrawArrays(vao: int, vertices: int) | EndFrame

  /** A cell's quad is two triangles: six vertices. */
  const QuadVertices := 6

  /** The renderer as the engine sees it: every call is appended to `events`. */
  class Renderer {
    var events: seq<Event>

    constructor ()
      ensures events == []
    {
      events := [];
    }

    method PreDraw()
      modifies this
      ensures events == old(events) + [BeginFrame]
    {
      events := events + [BeginFrame];
    }

    /** Draws `size / 3` vertices of `vao`; `size` counts floats, three per
        vertex, and the division truncates toward zero as Go's does. */
    method DrawVAO(vao: int, size: int)
      modifies this
      ensures events == old(events) + [DrawArrays(vao, if size >= 0 then size / 3 else -((-size) / 3))]
    {
      var vertices := if size >= 0 then size / 3 else -((-size) / 3);
      events := events + [DrawArrays(vao, vertices)];
    }

    method PostDraw()
      modifies this
      ensures events == old(events) + [EndFrame]
    {
      events := events + [EndFrame];
    }
  }

  /** A board of VAO handles of the same shape as a board of flags. */
  predicate SameShape(alive: seq<seq<bool>>, vaos: seq<seq<int>>) {
    |alive| == |vaos| && forall x :: 0 <= x < |alive| ==> |alive[x]| == |vaos[x]|
  }

  /** The draws of one cell: its quad when it is alive, nothing when dead. */
  function CellDraws(alive: bool, vao: int): (r: seq<Event>) {
    if alive then [DrawArrays(vao, QuadVertices)] else []
  }

  /** The draws of the first k cells of a row: one DrawArrays per live
      cell, in order. */
  function RowDraws(alive: seq<bool>, vaos: seq<int>, k: nat): (r: seq<Event>)
    requires |alive| == |vaos| && k <= |alive|
  {
    if k == 0 then [] else RowDraws(alive, vaos, k - 1) + CellDraws(alive[k - 1], vaos[k - 1])
  }

  /** The draws of the first k rows of a board, row after row. */
  function GridDraws(alive: seq<seq<bool>>, vaos: seq<seq<int>>, k: nat): (r: seq<Event>)
    requires SameShape(alive, vaos) && k <= |alive|
  {
    if k == 0 then []
    else GridDraws(alive, vaos, k - 1) + RowDraws(alive[k - 1], vaos[k - 1], |alive[k - 1]|)
  }

  /** A log that held the draws of the first y cells of a row, and then
      received the draws of cell y, holds the draws of the first y + 1. */
  lemma RowDrawsStep(log: seq<Event>, before: seq<Event>, after: seq<Event>, alive: seq<bool>, vaos: seq<int>, y: nat)
    requires |alive| == |vaos| && y < |alive|
    requires before == log + RowDraws(alive, vaos, y)
    requires after == before + CellDraws(alive[y], vaos[y])
    ensures after == log + RowDraws(alive, vaos, y + 1)
  {
    assert log + RowDraws(alive, vaos, y) + CellDraws(alive[y], vaos[y]) ==
      log + (RowDraws(alive, vaos, y) + CellDraws(alive[y], vaos[y]));
  }

  /** A log that held the draws of the first x rows, and then received the
      draws of row x, holds the draws of the first x + 1. */
  lemma GridDrawsStep(log: seq<Event>, before: seq<Event>, after: seq<Event>,
                      alive: seq<seq<bool>>, vaos: seq<seq<int>>, x: nat)
    requires SameShape(alive, vaos) && x < |alive|
    requires before == log + GridDraws(alive, vaos, x)
    requires after == before + RowDraws(alive[x], vaos[x], |alive[x]|)
    ensures after == log + GridDraws(alive, vaos, x + 1)
  {
    assert log + GridDraws(alive, vaos, x) + RowDraws(alive[x], vaos[x], |alive[x]|) ==
      log + (GridDraws(alive, vaos, x) + RowDraws(alive[x], vaos[x], |alive[x]|));
  }

  /** The number of live cells among the first k of a row, and among the
      first k rows of a board. */
  function LiveInRow(alive: seq<bool>, k: nat): (r: nat)
    requires k <= |alive|
    ensures r <= k
  {
    if k == 0 then 0 else LiveInRow(alive, k - 1) + (if alive[k - 1] then 1 else 0)
  }

  function LiveCells(alive: seq<seq<bool>>, k: nat): (r: nat)
    requires k <= |alive|
  {
    if k == 0 then 0 else LiveCells(alive, k - 1) + LiveInRow(alive[k - 1], |alive[k - 1]|)
  }

  /** The first k cells of a row issue exactly one draw per live cell, each
      of a live cell's handle with the quad's six vertices, and every live
      cell's handle is drawn. */
  lemma {:induction false} RowDrawsExact(alive: seq<bool>, vaos: seq<int>, k: nat)
    requires |alive| == |vaos| && k <= |alive|
    ensures |RowDraws(alive, vaos, k)| == LiveInRow(alive, k)
    ensures forall e :: e in RowDraws(alive, vaos, k) ==>
      exists j :: 0 <= j < k && alive[j] && e == DrawArrays(vaos[j], QuadVertices)
    ensures forall j :: 0 <= j < k && alive[j] ==> DrawArrays(vaos[j], QuadVertices) in RowDraws(alive, vaos, k)
  {
    if k > 0 {
      RowDrawsExact(alive, vaos, k - 1);
    }
  }

  /** The first k rows issue exactly one draw per live cell, each of a live
      cell's handle, and every live cell's handle is drawn; dead cells issue
      none. */
  lemma {:induction false} GridDrawsExact(alive: seq<seq<bool>>, vaos: seq<seq<int>>, k: nat)
    requires SameShape(alive, vaos) && k <= |alive|
    ensures |GridDraws(alive, vaos, k)| == LiveCells(alive, k)
    ensures forall e :: e in GridDraws(alive, vaos, k) ==>
      exists i, j :: 0 <= i < k && 0 <= j < |alive[i]| && alive[i][j] && e == DrawArrays(vaos[i][j], QuadVertices)
    ensures forall i, j :: 0 <= i < k && 0 <= j < |alive[i]| && alive[i][j] ==>
      DrawArrays(vaos[i][j], QuadVertices) in GridDraws(alive, vaos, k)
  {
    if k > 0 {
      var row := k - 1;
      var prev, last := GridDraws(alive, vaos, row), RowDraws(alive[row], vaos[row], |alive[row]|);
      GridDrawsExact(alive, vaos, row);
      RowDrawsExact(alive[row], vaos[row], |alive[row]|);
      assert GridDraws(alive, vaos, k) == prev + last;
      forall e | e in prev + last
        ensures exists i, j :: 0 <= i < k && 0 <= j < |alive[i]| && alive[i][j] && e == DrawArrays(vaos[i][j], QuadVertices)
      {
        if e in prev {
          var i, j :| 0 <= i < row && 0 <= j < |alive[i]| && alive[i][j] && e == DrawArrays(vaos[i][j], QuadVertices);
        } else {
          var j :| 0 <= j < |alive[row]| && alive[row][j] && e == DrawArrays(vaos[row][j], QuadVertices);
        }
      }
      forall i, j | 0 <= i < k && 0 <= j < |alive[i]| && alive[i][j]
        ensures DrawArrays(vaos[i][j], QuadVertices) in prev + last
      {
        if i < row {
          assert DrawArrays(vaos[i][j], QuadVertices) in prev;
        } else {
          assert DrawArrays(vaos[i][j], QuadVertices) in last;
        }
      }
    }
  }
}
