/**
 * Classic Life patterns on small bounded boards: the 2x2 block is a still
 * life and the blinker (a line of three cells) alternates between its
 * vertical and horizontal phases.
 */
module Patterns {
  import opened Grid
  import opened Rules

  /** A 4x4 board whose middle 2x2 square is alive. */
  const Block: Board := seq(4, y => seq(4, x => (y == 1 || y == 2) && (x == 1 || x == 2)))

  /** A 5x5 board with the vertical line `(x, y) = (2, 1), (2, 2), (2, 3)` alive. */
  const BlinkerVertical: Board := seq(5, y => seq(5, x => x == 2 && (y == 1 || y == 2 || y == 3)))

  /** The same board with the horizontal line `(x, y) = (1, 2), (2, 2), (3, 2)` alive. */
  const BlinkerHorizontal: Board := seq(5, y => seq(5, x => y == 2 && (x == 1 || x == 2 || x == 3)))

  /** The block is a fixed point of the rule. */
  lemma BlockIsStillLife()
    ensures Successor(Block) == Block
  {
    var next := Successor(Block);
    forall y | 0 <= y < 4
      ensures next[y] == Block[y]
    {
      forall x | 0 <= x < 4
        ensures next[y][x] == Block[y][x]
      {
        SuccessorAt(Block, y, x);
      }
    }
  }

  /** The vertical blinker becomes the horizontal one ... */
  lemma BlinkerTurnsHorizontal()
    ensures Successor(BlinkerVertical) == BlinkerHorizontal
  {
    var next := Successor(BlinkerVertical);
    forall y | 0 <= y < 5
      ensures next[y] == BlinkerHorizontal[y]
    {
      forall x | 0 <= x < 5
        ensures next[y][x] == BlinkerHorizontal[y][x]
      {
        SuccessorAt(BlinkerVertical, y, x);
      }
    }
  }

  /** ... and the horizontal blinker becomes the vertical one again. */
  lemma BlinkerTurnsVertical()
    ensures Successor(BlinkerHorizontal) == BlinkerVertical
  {
    var next := Successor(BlinkerHorizontal);
    forall y | 0 <= y < 5
      ensures next[y] == BlinkerVertical[y]
    {
      forall x | 0 <= x < 5
        ensures next[y][x] == BlinkerVertical[y][x]
      {
        SuccessorAt(BlinkerHorizontal, y, x);
      }
    }
  }
}
