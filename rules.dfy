/**
 * One generation of Conway's Game of Life on a bounded board: each cell
 * counts its live neighbours among the eight surrounding positions that lie
 * on the board (nothing wraps around an edge), then a live cell survives
 * with 2 or 3 of them and a dead cell is born with exactly 3.
 */
module Rules {
  import opened Grid

  /** The eight neighbour offsets `(dy, dx)`, in the order the simulator visits them. */
  const Offsets: seq<(int, int)> := [
    (-1, -1), (-1, 0), (-1, 1),
    ( 0, -1),          ( 0, 1),
    ( 1, -1), ( 1, 0), ( 1, 1)
  ]

  /** Position `(y, x)` lies on the board and its cell is alive; off-board positions count as empty. */
  predicate Occupied(board: Board, y: int, x: int)
    requires Rectangular(board)
  {
    0 <= y < |board| && 0 <= x < |board[0]| && board[y][x]
  }

  /** How many of the positions `(y + dy, x + dx)`, for `(dy, dx)` in `offsets`, are occupied. */
  function CountOver(board: Board, y: int, x: int, offsets: seq<(int, int)>): (n: nat)
    requires Rectangular(board)
    ensures n <= |offsets|
  {
    if offsets == [] then 0
    else
      var (dy, dx) := offsets[|offsets| - 1];
      CountOver(board, y, x, offsets[..|offsets| - 1]) + (if Occupied(board, y + dy, x + dx) then 1 else 0)
  }

  function NeighborCount(board: Board, y: int, x: int): nat
    requires Rectangular(board)
  {
    CountOver(board, y, x, Offsets)
  }

  function Bit(b: bool): nat { if b then 1 else 0 }

  /** The neighbour count written out as the sum over the eight surrounding positions. */
  lemma NeighborCountSum(board: Board, y: int, x: int)
    requires Rectangular(board)
    ensures NeighborCount(board, y, x) ==
      Bit(Occupied(board, y - 1, x - 1)) + Bit(Occupied(board, y - 1, x)) + Bit(Occupied(board, y - 1, x + 1)) +
      Bit(Occupied(board, y, x - 1)) + Bit(Occupied(board, y, x + 1)) +
      Bit(Occupied(board, y + 1, x - 1)) + Bit(Occupied(board, y + 1, x)) + Bit(Occupied(board, y + 1, x + 1))
  {
    assert Offsets[..8] == Offsets;
    CountOverStep(board, y, x, 0);
    CountOverStep(board, y, x, 1);
    CountOverStep(board, y, x, 2);
    CountOverStep(board, y, x, 3);
    CountOverStep(board, y, x, 4);
    CountOverStep(board, y, x, 5);
    CountOverStep(board, y, x, 6);
    CountOverStep(board, y, x, 7);
  }

  lemma CountOverStep(board: Board, y: int, x: int, k: nat)
    requires Rectangular(board) && k < |Offsets|
    ensures CountOver(board, y, x, Offsets[..k + 1]) ==
      CountOver(board, y, x, Offsets[..k]) + Bit(Occupied(board, y + Offsets[k].0, x + Offsets[k].1))
  {
    assert Offsets[..k + 1][..k] == Offsets[..k];
  }

  /** The rule for one cell, given whether it is alive and its neighbour count. */
  function NextCell(alive: bool, neighbors: nat): bool
  {
    (alive && neighbors > 1 && neighbors < 4) || (!alive && neighbors == 3)
  }

  /** The next generation: same size, every cell decided by the rule from the old board only. */
  function Successor(board: Board): (next: Board)
    requires Rectangular(board)
    ensures IsGrid(next, |board|, |board[0]|)
    ensures forall y, x :: 0 <= y < |board| && 0 <= x < |board[0]| ==>
      (next[y][x] <==>
        (board[y][x] && NeighborCount(board, y, x) in {2, 3}) ||
        (!board[y][x] && NeighborCount(board, y, x) == 3))
  {
    seq(|board|, y requires 0 <= y < |board| =>
      seq(|board[0]|, x requires 0 <= x < |board[0]| => NextCell(board[y][x], NeighborCount(board, y, x))))
  }

  /** One cell of the next board, with its neighbour count written out as the eight-term sum. */
  lemma SuccessorAt(board: Board, y: nat, x: nat)
    requires Rectangular(board) && y < |board| && x < |board[0]|
    ensures Successor(board)[y][x] == NextCell(board[y][x],
      Bit(Occupied(board, y - 1, x - 1)) + Bit(Occupied(board, y - 1, x)) + Bit(Occupied(board, y - 1, x + 1)) +
      Bit(Occupied(board, y, x - 1)) + Bit(Occupied(board, y, x + 1)) +
      Bit(Occupied(board, y + 1, x - 1)) + Bit(Occupied(board, y + 1, x)) + Bit(Occupied(board, y + 1, x + 1)))
  {
    NeighborCountSum(board, y, x);
  }

  /** The board after `k` generations. */
  function Evolve(board: Board, k: nat): (b: Board)
    requires Rectangular(board)
    ensures IsGrid(b, |board|, |board[0]|)
  {
    if k == 0 then board else Successor(Evolve(board, k - 1))
  }

  /**
   * The neighbour count of `iterate_board`: visits the eight offsets in
   * order and counts the positions that lie on the board and are alive.
   */
  method CountNeighbors(board: Board, y: nat, x: nat) returns (neighbors: nat)
    requires Rectangular(board)
    ensures neighbors == NeighborCount(board, y, x)
  {
    var height := |board|;
    var width := |board[0]|;
    neighbors := 0;
    for k := 0 to |Offsets|
      invariant neighbors == CountOver(board, y, x, Offsets[..k])
    {
      var (yOffset, xOffset) := Offsets[k];
      var yPos := y + yOffset;
      var xPos := x + xOffset;
      assert Offsets[..k + 1][..k] == Offsets[..k];
      if yPos >= 0 && xPos >= 0 && yPos < height && xPos < width && board[yPos][xPos] {
        neighbors := neighbors + 1;
      }
    }
    assert Offsets[..|Offsets|] == Offsets;
  }

  /**
   * `iterate_board`: fills a fresh all-dead board cell by cell, counting each
   * cell's neighbours over `Offsets` and skipping positions off the board,
   * and hands back the new board once every cell is decided.
   */
  method IterateBoard(board: Board) returns (next: Board)
    requires Rectangular(board)
    ensures next == Successor(board)
  {
    var height := |board|;
    var width := |board[0]|;
    var newBoard := Dead(height, width);
    ghost var target := Successor(board);
    for y := 0 to height
      invariant IsGrid(newBoard, height, width)
      invariant forall j :: 0 <= j < y ==> newBoard[j] == target[j]
      invariant forall j, i :: y <= j < height && 0 <= i < width ==> !newBoard[j][i]
    {
      for x := 0 to width
        invariant IsGrid(newBoard, height, width)
        invariant forall j :: 0 <= j < y ==> newBoard[j] == target[j]
        invariant forall j, i :: y < j < height && 0 <= i < width ==> !newBoard[j][i]
        invariant forall i :: 0 <= i < x ==> newBoard[y][i] == target[y][i]
        invariant forall i :: x <= i < width ==> !newBoard[y][i]
      {
        var neighbors := CountNeighbors(board, y, x);
        if board[y][x] && neighbors > 1 && neighbors < 4 {
          newBoard := newBoard[y := newBoard[y][x := true]];
        } else if !board[y][x] && neighbors == 3 {
          newBoard := newBoard[y := newBoard[y][x := true]];
        }
      }
    }
    next := newBoard;
  }

  /** A cell sees at most eight neighbours, at most three in a corner and at most five on an edge. */
  lemma NeighborCountBounds(board: Board, y: nat, x: nat)
    requires Rectangular(board) && y < |board| && x < |board[0]|
    ensures NeighborCount(board, y, x) <= 8
    ensures (y == 0 || y == |board| - 1) && (x == 0 || x == |board[0]| - 1) ==> NeighborCount(board, y, x) <= 3
    ensures (y == 0 || y == |board| - 1 || x == 0 || x == |board[0]| - 1) ==> NeighborCount(board, y, x) <= 5
  {
    NeighborCountSum(board, y, x);
  }

  /** The neighbour count reads only the cells adjacent to `(y, x)`. */
  lemma NeighborCountLocal(a: Board, b: Board, y: int, x: int)
    requires Rectangular(a) && Rectangular(b)
    requires |a| == |b| && |a[0]| == |b[0]|
    requires forall j, i :: 0 <= j < |a| && 0 <= i < |a[0]| && y - 1 <= j <= y + 1 && x - 1 <= i <= x + 1 ==> a[j][i] == b[j][i]
    ensures NeighborCount(a, y, x) == NeighborCount(b, y, x)
  {
    NeighborCountSum(a, y, x);
    NeighborCountSum(b, y, x);
  }

  /**
   * No wrap-around across the sides: on a board at least three cells wide,
   * the cells of the rightmost column play no part in the counts of the
   * leftmost column. `NeighborCountLocal` is the general fact; this lemma
   * and `NoWrapAroundRows` are its instances at the board's edges.
   */
  lemma NoWrapAround(a: Board, b: Board, y: int)
    requires Rectangular(a) && Rectangular(b)
    requires |a| == |b| && |a[0]| == |b[0]| >= 3
    requires forall j, i :: 0 <= j < |a| && 0 <= i < |a[0]| - 1 ==> a[j][i] == b[j][i]
    ensures NeighborCount(a, y, 0) == NeighborCount(b, y, 0)
  {
    NeighborCountLocal(a, b, y, 0);
  }

  /**
   * No wrap-around across the top and bottom: on a board at least three rows
   * tall, the cells of the bottom row play no part in the counts of the top row.
   */
  lemma NoWrapAroundRows(a: Board, b: Board, x: int)
    requires Rectangular(a) && Rectangular(b)
    requires |a| == |b| >= 3 && |a[0]| == |b[0]|
    requires forall j, i :: 0 <= j < |a| - 1 && 0 <= i < |a[0]| ==> a[j][i] == b[j][i]
    ensures NeighborCount(a, 0, x) == NeighborCount(b, 0, x)
  {
    NeighborCountLocal(a, b, 0, x);
  }

  /** Every cell of the next board depends only on the old board's cells around it. */
  lemma SuccessorLocal(a: Board, b: Board, y: nat, x: nat)
    requires Rectangular(a) && Rectangular(b)
    requires |a| == |b| && |a[0]| == |b[0]| && y < |a| && x < |a[0]|
    requires forall j, i :: 0 <= j < |a| && 0 <= i < |a[0]| && y - 1 <= j <= y + 1 && x - 1 <= i <= x + 1 ==> a[j][i] == b[j][i]
    ensures Successor(a)[y][x] == Successor(b)[y][x]
  {
    NeighborCountLocal(a, b, y, x);
  }

  /** An all-dead board stays all-dead. */
  lemma DeadStaysDead(height: nat, width: nat)
    requires height >= 1
    ensures Successor(Dead(height, width)) == Dead(height, width)
  {
    var d := Dead(height, width);
    var next := Successor(d);
    forall y | 0 <= y < height
      ensures next[y] == d[y]
    {
      forall x | 0 <= x < width
        ensures !next[y][x]
      {
        NeighborCountSum(d, y, x);
      }
    }
  }
}
