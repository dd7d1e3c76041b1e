/**
 * The population shown in the statistics line: the number of live cells.
 */
module Stats {
  import opened Grid

  /** Number of `true` entries of `s`. */
  function CountTrue(s: seq<bool>): (n: nat)
    ensures n <= |s|
  {
    if s == [] then 0 else CountTrue(s[..|s| - 1]) + (if s[|s| - 1] then 1 else 0)
  }

  /** Number of live cells of the board. */
  function Population(board: Board): nat
  {
    CountTrue(Flatten(board))
  }

  lemma {:induction false} CountTrueAppend(a: seq<bool>, b: seq<bool>)
    ensures CountTrue(a + b) == CountTrue(a) + CountTrue(b)
  {
    if b != [] {
      var b' := b[..|b| - 1];
      CountTrueAppend(a, b');
      assert (a + b)[..|a + b| - 1] == a + b';
    } else {
      assert a + b == a;
    }
  }

  /**
   * `print_stats`' counting loop: visits every cell row by row and counts
   * the live ones.
   */
  method PopulationCount(board: Board) returns (population: nat)
    requires Rectangular(board)
    ensures population == Population(board)
  {
    population := 0;
    for y := 0 to |board|
      invariant population == Population(board[..y])
    {
      for x := 0 to |board[0]|
        invariant population == Population(board[..y]) + CountTrue(board[y][..x])
      {
        assert board[y][..x + 1][..x] == board[y][..x];
        if board[y][x] {
          population := population + 1;
        }
      }
      assert board[..y + 1][..y] == board[..y];
      assert board[y][..|board[0]|] == board[y];
      CountTrueAppend(Flatten(board[..y]), board[y]);
    }
    assert board[..|board|] == board;
  }

  lemma {:induction false} CountTrueMultiplicity(s: seq<bool>)
    ensures CountTrue(s) == multiset(s)[true]
  {
    if s != [] {
      var init := s[..|s| - 1];
      CountTrueMultiplicity(init);
      assert s == init + [s[|s| - 1]];
    }
  }

  /** The population is the multiplicity of `true` among the cells, so at most `height * width`. */
  lemma PopulationIsLiveCells(board: Board, height: nat, width: nat)
    requires IsGrid(board, height, width)
    ensures Population(board) == multiset(Flatten(board))[true]
    ensures Population(board) <= height * width
  {
    CountTrueMultiplicity(Flatten(board));
    FlattenLength(board, height, width);
  }

  lemma {:induction false} CountTrueZero(s: seq<bool>)
    ensures CountTrue(s) == 0 <==> forall i :: 0 <= i < |s| ==> !s[i]
  {
    if s != [] {
      CountTrueZero(s[..|s| - 1]);
    }
  }

  /** The population is zero exactly when every cell is dead. */
  lemma {:induction false} PopulationZero(board: Board, height: nat, width: nat)
    requires IsGrid(board, height, width)
    ensures Population(board) == 0 <==> forall y, x :: 0 <= y < height && 0 <= x < width ==> !board[y][x]
  {
    if height > 0 {
      var prefix := board[..height - 1];
      PopulationZero(prefix, height - 1, width);
      CountTrueAppend(Flatten(prefix), board[height - 1]);
      CountTrueZero(board[height - 1]);
    }
  }
}
