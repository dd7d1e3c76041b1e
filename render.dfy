/**
 * The half-block renderer: two board rows make one line of text, each
 * character showing a top and a bottom cell, so a board of `height` rows
 * takes `ceil(height / 2)` lines. The whole frame is built in one buffer
 * before it is written.
 */
module Render {
  import opened Grid

  const FullBlock: char := '\U{2588}'
  const UpperHalf: char := '\U{2580}'
  const LowerHalf: char := '\U{2584}'

  /** The glyph for a top cell over a bottom cell. */
  function Glyph(top: bool, bottom: bool): char
  {
    match (top, bottom)
    case (true, true) => FullBlock
    case (true, false) => UpperHalf
    case (false, true) => LowerHalf
    case (false, false) => ' '
  }

  /** The glyph for a cell of a trailing unpaired row. */
  function LoneGlyph(top: bool): char
  {
    if top then UpperHalf else ' '
  }

  /** The character for column `x` of the line whose top row is `y`. */
  function PixelAt(board: Board, y: nat, x: nat): char
    requires Rectangular(board) && y < |board| && x < |board[0]|
  {
    if y + 1 != |board| then Glyph(board[y][x], board[y + 1][x]) else LoneGlyph(board[y][x])
  }

  /** The text line for rows `y` and `y + 1`: one glyph per column, then a newline. */
  function Line(board: Board, y: nat): string
    requires Rectangular(board) && y < |board|
  {
    seq(|board[0]|, x requires 0 <= x < |board[0]| => PixelAt(board, y, x)) + ['\n']
  }

  /** The first `n` lines of the frame. */
  function Lines(board: Board, n: nat): string
    requires Rectangular(board) && 2 * n <= |board| + 1
  {
    if n == 0 then [] else Lines(board, n - 1) + Line(board, 2 * (n - 1))
  }

  /** Number of text lines for a board of `height` rows. */
  function LineCount(height: nat): nat
  {
    (height + 1) / 2
  }

  /** The text the renderer writes for `board`. */
  function Frame(board: Board): string
    requires Rectangular(board)
  {
    Lines(board, LineCount(|board|))
  }

  /**
   * `print_board`, up to the single write: walks the even rows, pushes one
   * glyph per column and a newline per row pair into the buffer.
   */
  method PrintBoard(board: Board) returns (buffer: string)
    requires Rectangular(board)
    ensures buffer == Frame(board)
  {
    buffer := [];
    for y := 0 to |board|
      invariant buffer == Lines(board, (y + 1) / 2)
    {
      if y % 2 == 0 {
        for x := 0 to |board[0]|
          invariant buffer == Lines(board, y / 2) + Line(board, y)[..x]
        {
          var pixels: char;
          if y + 1 != |board| {
            match (board[y][x], board[y + 1][x])
            case (true, true) => pixels := FullBlock;
            case (true, false) => pixels := UpperHalf;
            case (false, true) => pixels := LowerHalf;
            case (false, false) => pixels := ' ';
          } else {
            if board[y][x] {
              pixels := UpperHalf;
            } else {
              pixels := ' ';
            }
          }
          assert Line(board, y)[..x + 1] == Line(board, y)[..x] + [pixels];
          buffer := buffer + [pixels];
        }
        assert Line(board, y) == Line(board, y)[..|board[0]|] + ['\n'];
        buffer := buffer + ['\n'];
      }
    }
  }

  lemma {:induction false} LinesLength(board: Board, n: nat)
    requires Rectangular(board) && 2 * n <= |board| + 1
    ensures |Lines(board, n)| == n * (|board[0]| + 1)
  {
    if n > 0 {
      LinesLength(board, n - 1);
      assert (n - 1) * (|board[0]| + 1) + (|board[0]| + 1) == n * (|board[0]| + 1);
    }
  }

  /** The frame holds `ceil(height / 2)` lines of `width + 1` characters. */
  lemma FrameLength(board: Board)
    requires Rectangular(board)
    ensures |Frame(board)| == LineCount(|board|) * (|board[0]| + 1)
  {
    LinesLength(board, LineCount(|board|));
  }

  lemma {:induction false} LinesAt(board: Board, n: nat, i: nat, x: nat)
    requires Rectangular(board) && 2 * n <= |board| + 1
    requires i < n && x <= |board[0]|
    ensures i * (|board[0]| + 1) + x < |Lines(board, n)|
    ensures Lines(board, n)[i * (|board[0]| + 1) + x] == (if x < |board[0]| then PixelAt(board, 2 * i, x) else '\n')
  {
    var w := |board[0]| + 1;
    LinesLength(board, n - 1);
    assert Lines(board, n) == Lines(board, n - 1) + Line(board, 2 * (n - 1));
    assert (n - 1) * w + w == n * w;
    if i < n - 1 {
      LinesAt(board, n - 1, i, x);
    }
  }

  /**
   * Character law: in line `i`, column `x` shows rows `2i` and `2i + 1` through
   * the four-glyph table, or row `2i` alone through the two-glyph table when
   * it is the last, unpaired row; column `width` is the newline.
   */
  lemma FrameAt(board: Board, i: nat, x: nat)
    requires Rectangular(board) && i < LineCount(|board|) && x <= |board[0]|
    ensures i * (|board[0]| + 1) + x < |Frame(board)|
    ensures x == |board[0]| ==> Frame(board)[i * (|board[0]| + 1) + x] == '\n'
    ensures x < |board[0]| && 2 * i + 1 < |board| ==>
      Frame(board)[i * (|board[0]| + 1) + x] == Glyph(board[2 * i][x], board[2 * i + 1][x])
    ensures x < |board[0]| && 2 * i + 1 == |board| ==>
      Frame(board)[i * (|board[0]| + 1) + x] == LoneGlyph(board[2 * i][x])
  {
    LinesAt(board, LineCount(|board|), i, x);
  }

  /** The frame determines the board: two boards of one size that render alike are equal. */
  lemma FrameInjective(a: Board, b: Board)
    requires Rectangular(a) && Rectangular(b)
    requires |a| == |b| && |a[0]| == |b[0]|
    requires Frame(a) == Frame(b)
    ensures a == b
  {
    forall y | 0 <= y < |a|
      ensures a[y] == b[y]
    {
      forall x | 0 <= x < |a[0]|
        ensures a[y][x] == b[y][x]
      {
        var i := y / 2;
        FrameAt(a, i, x);
        FrameAt(b, i, x);
      }
    }
  }
}
