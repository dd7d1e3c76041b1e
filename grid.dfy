/**
 * The board of the simulator: a `height x width` matrix of cells, stored
 * row by row and indexed `board[y][x]`, `true` meaning alive.
 * The row-major flattening is the fingerprint the cycle detector keys on.
 */
module Grid {

  type Board = seq<seq<bool>>

  /** `board` has exactly `height` rows of exactly `width` cells each. */
  predicate IsGrid(board: Board, height: nat, width: nat)
  {
    |board| == height && forall y :: 0 <= y < height ==> |board[y]| == width
  }

  /**
   * What every operation of the simulator demands of its board: at least
   * one row (the width is read off row 0) and all rows as long as row 0.
   */
  predicate Rectangular(board: Board)
  {
    |board| >= 1 && IsGrid(board, |board|, |board[0]|)
  }

  /** The board of the given size with every cell dead. */
  function Dead(height: nat, width: nat): (board: Board)
    ensures IsGrid(board, height, width)
    ensures forall y, x :: 0 <= y < height && 0 <= x < width ==> !board[y][x]
  {
    seq(height, _ => seq(width, _ => false))
  }

  /** The cells of `board` row after row, the top row first. */
  function Flatten(board: Board): seq<bool>
  {
    if board == [] then [] else Flatten(board[..|board| - 1]) + board[|board| - 1]
  }

  lemma {:induction false} FlattenLength(board: Board, height: nat, width: nat)
    requires IsGrid(board, height, width)
    ensures |Flatten(board)| == height * width
  {
    if height > 0 {
      FlattenLength(board[..height - 1], height - 1, width);
      assert (height - 1) * width + width == height * width;
    }
  }

  /** Cell `(y, x)` sits at position `y * width + x` of the flattening. */
  lemma {:induction false} FlattenAt(board: Board, height: nat, width: nat, y: nat, x: nat)
    requires IsGrid(board, height, width)
    requires y < height && x < width
    ensures y * width + x < |Flatten(board)|
    ensures Flatten(board)[y * width + x] == board[y][x]
  {
    var prefix := board[..height - 1];
    FlattenLength(prefix, height - 1, width);
    assert Flatten(board) == Flatten(prefix) + board[height - 1];
    if y < height - 1 {
      FlattenAt(prefix, height - 1, width, y, x);
      assert y * width + x < (height - 1) * width by {
        assert y * width <= (height - 2) * width;
        assert (height - 2) * width + width == (height - 1) * width;
      }
    } else {
      assert (height - 1) * width + width == height * width;
    }
  }

  /** Two boards of the same size with the same fingerprint are the same board. */
  lemma {:induction false} FlattenInjective(a: Board, b: Board, height: nat, width: nat)
    requires IsGrid(a, height, width) && IsGrid(b, height, width)
    requires Flatten(a) == Flatten(b)
    ensures a == b
  {
    if height > 0 {
      var pa, pb := a[..height - 1], b[..height - 1];
      FlattenLength(pa, height - 1, width);
      FlattenLength(pb, height - 1, width);
      assert Flatten(a) == Flatten(pa) + a[height - 1];
      assert Flatten(b) == Flatten(pb) + b[height - 1];
      assert Flatten(pa) == Flatten(a)[..(height - 1) * width];
      assert Flatten(pb) == Flatten(b)[..(height - 1) * width];
      FlattenInjective(pa, pb, height - 1, width);
      assert a[height - 1] == Flatten(a)[(height - 1) * width..];
      assert b[height - 1] == Flatten(b)[(height - 1) * width..];
      assert a == pa + [a[height - 1]];
      assert b == pb + [b[height - 1]];
    }
  }

  /**
   * Every fingerprint of length `n`: a finite set, so a history of distinct
   * fingerprints of one board size can only grow a bounded number of times.
   */
  function AllFingerprints(n: nat): (all: set<seq<bool>>)
    ensures forall s :: s in all ==> |s| == n
  {
    if n == 0 then {[]}
    else set s, c | s in AllFingerprints(n - 1) && c in {false, true} :: s + [c]
  }

  lemma {:induction false} InAllFingerprints(s: seq<bool>)
    ensures s in AllFingerprints(|s|)
  {
    if s != [] {
      var init := s[..|s| - 1];
      InAllFingerprints(init);
      var c := s[|s| - 1];
      assert s == init + [c];
      assert c in {false, true};
      assert AllFingerprints(|s|) == set t, d | t in AllFingerprints(|s| - 1) && d in {false, true} :: t + [d];
    }
  }

  /**
   * Adding a new fingerprint of length `n` to a set of such fingerprints
   * strictly shrinks the set of those not yet seen.
   */
  lemma FingerprintsShrink(seen: set<seq<bool>>, key: seq<bool>, n: nat)
    requires seen <= AllFingerprints(n) && key !in seen && |key| == n
    ensures seen + {key} <= AllFingerprints(n)
    ensures AllFingerprints(n) - (seen + {key}) < AllFingerprints(n) - seen
  {
    InAllFingerprints(key);
  }
}
