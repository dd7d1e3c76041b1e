/**
 * The main loop: show the board (and, unless quiet, the statistics line),
 * record it with the cycle detector, and either stop at the first repeated
 * board or advance one generation and go round again. Also the frame
 * interval derived from the requested frames per second.
 */
module Driver {
  import opened Options
  import opened Grid
  import opened Rules
  import opened Render
  import opened Stats
  import opened LoopDetection

  /** The statistics line: `Generation: g` and `Population: p`. */
  datatype StatsLine = StatsLine(generation: nat, population: nat)

  /** What one pass of the loop shows: the rendered frame and, unless quiet, the statistics. */
  datatype Screen = Screen(picture: string, stats: Option<StatsLine>)

  /** The screen shown for `board` in generation `generation`. */
  function ScreenOf(board: Board, generation: nat, quiet: bool): Screen
    requires Rectangular(board)
  {
    Screen(Frame(board), if quiet then None else Some(StatsLine(generation, Population(board))))
  }

  /** The screen shown for generation `k` of a run from `initial`. */
  function ScreenAt(initial: Board, k: nat, quiet: bool): Screen
    requires Rectangular(initial)
  {
    ScreenOf(Evolve(initial, k), k, quiet)
  }

  /** Drawing one generation: the frame, then the statistics line unless quiet. */
  method Show(board: Board, generation: nat, quiet: bool) returns (screen: Screen)
    requires Rectangular(board)
    ensures screen == ScreenOf(board, generation, quiet)
  {
    var picture := PrintBoard(board);
    var stats := None;
    if !quiet {
      var population := PopulationCount(board);
      stats := Some(StatsLine(generation, population));
    }
    screen := Screen(picture, stats);
  }

  /**
   * A run from `initial` stops at `generation`, reporting `loopStart`: the
   * board of `generation` repeats the one of `loopStart`, and the boards of
   * all generations before `generation` are pairwise distinct.
   */
  ghost predicate FirstRepeat(initial: Board, generation: nat, loopStart: nat)
    requires Rectangular(initial)
  {
    && loopStart < generation
    && Evolve(initial, loopStart) == Evolve(initial, generation)
    && forall i, j :: 0 <= i < j < generation ==> Evolve(initial, i) != Evolve(initial, j)
  }

  /** The boards of generations `0 .. n - 1`. */
  function Trajectory(initial: Board, n: nat): (boards: seq<Board>)
    requires Rectangular(initial)
    ensures |boards| == n
  {
    if n == 0 then [] else Trajectory(initial, n - 1) + [Evolve(initial, n - 1)]
  }

  lemma {:induction false} TrajectoryAt(initial: Board, n: nat, k: nat)
    requires Rectangular(initial) && k < n
    ensures Trajectory(initial, n)[k] == Evolve(initial, k)
  {
    if k < n - 1 {
      TrajectoryAt(initial, n - 1, k);
    }
  }

  /** The screens shown for generations `0 .. n - 1`. */
  function Screens(initial: Board, n: nat, quiet: bool): (screens: seq<Screen>)
    requires Rectangular(initial)
    ensures |screens| == n
  {
    if n == 0 then [] else Screens(initial, n - 1, quiet) + [ScreenAt(initial, n - 1, quiet)]
  }

  lemma {:induction false} ScreensAt(initial: Board, n: nat, quiet: bool)
    requires Rectangular(initial)
    ensures forall k :: 0 <= k < n ==> Screens(initial, n, quiet)[k] == ScreenAt(initial, k, quiet)
  {
    if n > 0 {
      ScreensAt(initial, n - 1, quiet);
    }
  }

  /**
   * What the history holds after the boards `seen[0], seen[1], ...` were
   * recorded in turn without a repeat: each key is the fingerprint of the
   * board whose index it maps to, every board seen is recorded, and the
   * boards seen are pairwise distinct.
   */
  ghost predicate Recorded(seen: seq<Board>, history: History)
  {
    && (forall key :: key in history ==> history[key] < |seen| && Flatten(seen[history[key]]) == key)
    && (forall k :: 0 <= k < |seen| ==> Flatten(seen[k]) in history)
    && (forall i, j :: 0 <= i < j < |seen| ==> seen[i] != seen[j])
  }

  /** Recording a board whose fingerprint is new extends the record by that board. */
  lemma RecordNew(seen: seq<Board>, history: History, board: Board)
    requires Recorded(seen, history)
    requires Flatten(board) !in history
    ensures Recorded(seen + [board], history[Flatten(board) := |seen|])
  {
    forall k | 0 <= k < |seen|
      ensures seen[k] != board
    {
      assert Flatten(seen[k]) in history;
    }
  }

  /**
   * When the history records generations `0 .. generation - 1` of a run and
   * the board of generation `generation` is new, recording it extends the
   * record to generation `generation + 1`.
   */
  lemma RecordNext(initial: Board, generation: nat, history: History)
    requires Rectangular(initial)
    requires Recorded(Trajectory(initial, generation), history)
    requires Flatten(Evolve(initial, generation)) !in history
    ensures Recorded(Trajectory(initial, generation + 1), history[Flatten(Evolve(initial, generation)) := generation])
  {
    RecordNew(Trajectory(initial, generation), history, Evolve(initial, generation));
  }

  /**
   * When the history records generations `0 .. generation - 1` of a run and
   * already holds the fingerprint of generation `generation`, the generation
   * it maps to is where the run's first repeat starts.
   */
  lemma RecordRepeat(initial: Board, generation: nat, history: History)
    requires Rectangular(initial)
    requires Recorded(Trajectory(initial, generation), history)
    requires Flatten(Evolve(initial, generation)) in history
    ensures FirstRepeat(initial, generation, history[Flatten(Evolve(initial, generation))])
  {
    var seen := Trajectory(initial, generation);
    var board := Evolve(initial, generation);
    var start := history[Flatten(board)];
    TrajectoryAt(initial, generation, start);
    FlattenInjective(seen[start], board, |initial|, |initial[0]|);
    forall i, j | 0 <= i < j < generation
      ensures Evolve(initial, i) != Evolve(initial, j)
    {
      TrajectoryAt(initial, generation, i);
      TrajectoryAt(initial, generation, j);
    }
  }

  /**
   * The loop's exit: the board of generation `generation` is already in a
   * history that records generations `0 .. generation - 1`.
   */
  lemma RunStops(initial: Board, generation: nat, quiet: bool, history: History, screens: seq<Screen>)
    requires Rectangular(initial)
    requires Recorded(Trajectory(initial, generation), history)
    requires Flatten(Evolve(initial, generation)) in history
    requires screens == Screens(initial, generation + 1, quiet)
    ensures FirstRepeat(initial, generation, history[Flatten(Evolve(initial, generation))])
    ensures |screens| == generation + 1
    ensures forall k :: 0 <= k < |screens| ==> screens[k] == ScreenAt(initial, k, quiet)
  {
    RecordRepeat(initial, generation, history);
    ScreensAt(initial, generation + 1, quiet);
  }

  /**
   * The main loop. It always terminates: the history only gains fingerprints
   * of one length while no board repeats, and there are finitely many.
   */
  method Run(initial: Board, quiet: bool) returns (generation: nat, loopStart: nat, screens: seq<Screen>)
    requires Rectangular(initial)
    ensures FirstRepeat(initial, generation, loopStart)
    ensures |screens| == generation + 1
    ensures forall k :: 0 <= k < |screens| ==> screens[k] == ScreenAt(initial, k, quiet)
  {
    ghost var height, width := |initial|, |initial[0]|;
    ghost var unseen := AllFingerprints(height * width);
    var board := initial;
    generation := 0;
    var history: History := map[];
    screens := [];
    while true
      invariant board == Evolve(initial, generation)
      invariant screens == Screens(initial, generation, quiet)
      invariant history.Keys <= unseen
      invariant Recorded(Trajectory(initial, generation), history)
      decreases unseen - history.Keys
    {
      var screen := Show(board, generation, quiet);
      screens := screens + [screen];
      assert screens == Screens(initial, generation + 1, quiet);
      var found;
      ghost var before := history;
      found, history := DetectLoop(board, generation, history);
      if found.Some? {
        loopStart := found.value;
        RunStops(initial, generation, quiet, before, screens);
        return;
      }
      RecordNext(initial, generation, before);
      FlattenLength(board, height, width);
      FingerprintsShrink(before.Keys, Flatten(board), height * width);
      board := IterateBoard(board);
      generation := generation + 1;
    }
  }

  /** A run's outcome is determined by its initial board. */
  lemma FirstRepeatUnique(initial: Board, g1: nat, s1: nat, g2: nat, s2: nat)
    requires Rectangular(initial)
    requires FirstRepeat(initial, g1, s1) && FirstRepeat(initial, g2, s2)
    ensures g1 == g2 && s1 == s2
  {
  }

  const DefaultFps: nat := 20

  /**
   * `get_fps` after the line has been read: `typed` is the parsed answer,
   * `None` when it does not parse; the default rate stands in for it then.
   */
  function GetFps(typed: Option<nat>, defaultFps: nat): (millis: nat)
    ensures var fps := if typed.Some? then typed.value else defaultFps;
      (fps == 0 ==> millis == 0) && (fps > 0 ==> millis * fps <= 1000 < (millis + 1) * fps)
  {
    var targetFps := if typed.Some? then typed.value else defaultFps;
    if targetFps > 0 then 1000 / targetFps else 0
  }

  /**
   * The frame interval in milliseconds for the `--fps` flag (`fpsFlag`) or,
   * without it, the rate typed at the prompt: the whole part of `1000 / fps`,
   * and 0 (unthrottled) for a rate of 0 or any rate above 1000.
   */
  function FrameTime(fpsFlag: Option<nat>, typed: Option<nat>): (millis: nat)
    ensures var fps := if fpsFlag.Some? then fpsFlag.value else if typed.Some? then typed.value else DefaultFps;
      && (fps > 0 ==> millis * fps <= 1000 < (millis + 1) * fps)
      && (millis == 0 <==> fps == 0 || fps > 1000)
      && millis <= 1000
  {
    match fpsFlag
    case None => GetFps(typed, DefaultFps)
    case Some(0) => 0
    case Some(fps) => 1000 / fps
  }
}
