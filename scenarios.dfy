/**
 * Whole runs of the main loop from the classic patterns: what generation
 * the loop stops at and which generation it reports as the loop start.
 */
module Scenarios {
  import opened Grid
  import opened Rules
  import opened Patterns
  import opened Driver

  /** From the vertical blinker the loop stops at generation 2, reporting a loop from generation 0. */
  lemma BlinkerRun(generation: nat, loopStart: nat)
    ensures FirstRepeat(BlinkerVertical, generation, loopStart) <==> generation == 2 && loopStart == 0
  {
    var v, h := BlinkerVertical, BlinkerHorizontal;
    BlinkerTurnsHorizontal();
    BlinkerTurnsVertical();
    assert Evolve(v, 1) == h;
    assert Evolve(v, 2) == v;
    assert v != h by {
      assert v[1][2] != h[1][2];
    }
    if generation > 2 {
      assert Evolve(v, 0) == Evolve(v, 2);
    }
  }

  /** From the block the loop stops at generation 1, reporting a loop from generation 0. */
  lemma BlockRun(generation: nat, loopStart: nat)
    ensures FirstRepeat(Block, generation, loopStart) <==> generation == 1 && loopStart == 0
  {
    BlockIsStillLife();
    assert Evolve(Block, 1) == Block;
    if generation > 1 {
      assert !FirstRepeat(Block, generation, loopStart) by {
        assert Evolve(Block, 0) == Evolve(Block, 1);
      }
    }
  }
}
