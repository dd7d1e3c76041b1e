/**
 * The cycle detector: a history maps the fingerprint of every board seen so
 * far (its row-major flattening) to a generation number. Recording a board
 * overwrites its entry and reports the generation stored before, if any.
 */
module LoopDetection {
  import opened Options
  import opened Grid

  type History = map<seq<bool>, nat>

  /**
   * `detect_loop`: inserts `Flatten(board) -> generation` into the history
   * and returns what the key held before, `None` for a first sighting.
   */
  method DetectLoop(board: Board, generation: nat, history: History) returns (loopStart: Option<nat>, updated: History)
    ensures loopStart.None? <==> Flatten(board) !in history
    ensures loopStart.Some? ==> loopStart.value == history[Flatten(board)]
    ensures updated == history[Flatten(board) := generation]
    ensures updated.Keys == history.Keys + {Flatten(board)}
    ensures forall key :: key in history && key != Flatten(board) ==> updated[key] == history[key]
  {
    var key := Flatten(board);
    if key in history {
      loopStart := Some(history[key]);
    } else {
      loopStart := None;
    }
    updated := history[key := generation];
  }
}
