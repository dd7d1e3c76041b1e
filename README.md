# Game of Life in the terminal — a verified model

The simulator plays Conway's Game of Life on a bounded board. The board is `height` rows of
`width` cells, indexed `board[y][x]`, with `true` meaning alive. Each pass of the main loop:

1. draws the board with half-block characters, two rows per line of text;
2. unless quiet, prints the generation number and the population;
3. asks the cycle detector whether this exact board has been seen before;
4. stops at the first repeat, or computes the next generation and goes round again.

The frame interval is derived from a frames-per-second rate. The rate comes from the `--fps`
flag, or else from the answer typed at the prompt, or else from the default of 20.

This Dafny project models that core in its own imperative form. Each Rust function with loops
becomes a method with the same loops. Each method is proved against a specification function,
and the lemmas state the properties of those functions:

- `Rules.IterateBoard` against `Rules.Successor`;
- `Render.PrintBoard` against `Render.Frame`;
- `Stats.PopulationCount` against `Stats.Population`;
- `Driver.Run` against `Rules.Evolve` and `Driver.FirstRepeat`.

The Rust `&mut` arguments (the board of `iterate_board`, the history of `detect_loop`) are
modelled as in-out values. The method returns the new value and the caller assigns it back. The
borrow rules rule out aliasing, so this loses nothing.

Modules:

- `Grid`: the board shape, the all-dead board, and the row-major fingerprint `Flatten`.
- `Rules`: the eight neighbour offsets, the neighbour count, the rule, and `iterate_board`.
- `Render`: the glyph table and `print_board`'s buffer.
- `Stats`: the population count of `print_stats`.
- `LoopDetection`: `detect_loop` over a history map.
- `Driver`: one screen, the main loop, and the frame interval.
- `Patterns`, `Scenarios`: the block and the blinker, and the run the main loop makes from each.

`detect_loop` calls `insert`, which overwrites the entry and returns the previous value, so the
history ends up holding the latest generation of a fingerprint, not the first. The loop stops at
the first repeat, so the value returned is still the generation where the first cycle starts
(`Driver.RecordRepeat`). `LoopDetection.DetectLoop` models the overwrite as written.

## Model

| member | source | states |
|---|---|---|
| Rules.CountNeighbors | src/main.rs:153-182 | visiting the eight offsets of `Offsets` (the source's `NEIGHBOR_OFFSETS`) in order and counting the on-board live positions yields exactly `NeighborCount`, the count over `Offsets` with off-board positions counted as empty |
| Rules.IterateBoard | src/main.rs:160-192 | the board handed back is `Successor(board)`, computed entirely from the old board |
| Rules.Successor | src/main.rs:161-191 | the next board has the same height and width; each cell is `NextCell` of the old cell and its neighbour count, that is, alive exactly when it was alive with 2 or 3 neighbours, or dead with exactly 3 |
| Rules.SuccessorAt | src/main.rs:153-188 | one cell of the next board, with its neighbour count written out as the sum over the eight surrounding positions that lie on the board |
| Rules.NeighborCountBounds | src/main.rs:153-182 | a neighbour count is at most 8, at most 3 in a corner and at most 5 on an edge |
| Rules.NoWrapAround | src/main.rs:171-182 | on a board at least three wide, the rightmost column does not affect the counts of the leftmost column |
| Rules.NoWrapAroundRows | src/main.rs:171-182 | on a board at least three tall, the bottom row does not affect the counts of the top row |
| Rules.NeighborCountLocal | src/main.rs:171-182 | boards that agree on the 3x3 square around a cell give that cell the same neighbour count |
| Rules.SuccessorLocal | src/main.rs:167-188 | a cell of the next board depends only on the old board's 3x3 square around it |
| Rules.DeadStaysDead | src/main.rs:160-192 | an all-dead board stays all-dead |
| Patterns.BlockIsStillLife | src/main.rs:160-192 | the 2x2 block is a fixed point of one generation |
| Patterns.BlinkerTurnsHorizontal | src/main.rs:160-192 | one generation turns the vertical blinker into the horizontal one |
| Patterns.BlinkerTurnsVertical | src/main.rs:160-192 | one generation turns the horizontal blinker back into the vertical one |
| Render.PrintBoard | src/main.rs:195-221 | the buffer built is exactly `Frame(board)`: the lines for row pairs 0-1, 2-3, ..., each line being one glyph per column and then a newline |
| Render.FrameLength | src/main.rs:196-221 | the buffer holds `ceil(height / 2)` lines of `width + 1` characters |
| Render.FrameAt | src/main.rs:199-219 | character law: in line `i`, column `x` is the four-glyph table `Glyph` applied to rows `2i` and `2i+1`, or the two-glyph table `LoneGlyph` applied to a trailing unpaired row; column `width` is the newline |
| Render.FrameInjective | src/main.rs:203-216 | two boards of one size that render to the same buffer are equal, so the rendering loses no cell |
| Stats.PopulationCount | src/main.rs:226-234 | the counting loop yields `Population(board)`, the number of `true` cells in the row-major flattening |
| Stats.PopulationIsLiveCells | src/main.rs:227-234 | the population is the multiplicity of `true` among the cells, and so at most `height * width` |
| Stats.PopulationZero | src/main.rs:227-234 | the population is zero exactly when every cell is dead |
| Grid.FlattenLength | src/main.rs:249 | the fingerprint of a `height x width` board has `height * width` entries |
| Grid.FlattenAt | src/main.rs:249 | cell `(y, x)` is entry `y * width + x` of the fingerprint `Flatten(board)`, the row-major flattening `detect_loop` keys on |
| Grid.FlattenInjective | src/main.rs:246-249 | two boards of one size with equal fingerprints are equal, so a fingerprint match is a board match |
| LoopDetection.DetectLoop | src/main.rs:243-251 | returns `None` exactly when the fingerprint is new, and otherwise the generation it was stored with; the history afterwards maps the fingerprint to the current generation and leaves every other entry unchanged |
| Driver.Show | src/main.rs:82-86 | one pass draws `Frame(board)` and, unless quiet, the statistics line with the generation and the population |
| Driver.RecordNext | src/main.rs:87-97 | recording a new board extends the history's record of generations `0 .. g-1` to `0 .. g` |
| Driver.RecordRepeat | src/main.rs:87-92 | when the fingerprint of generation `g` is already in the history, the generation it maps to starts the run's first cycle |
| Driver.RunStops | src/main.rs:87-92 | at the loop's exit, the screens shown are those of generations `0 .. g`, and `g` with the reported generation is the first repeat |
| Driver.Run | src/main.rs:81-103 | the loop terminates at the first generation `g` whose board equals the board of an earlier generation `s`, reports `s`, and has shown exactly the screens of generations `0 .. g` in order |
| Driver.FirstRepeatUnique | src/main.rs:87-98 | the generation at which a run stops, and the generation it reports, are determined by the initial board |
| Driver.GetFps | src/main.rs:143-149 | the interval is `floor(1000 / fps)` milliseconds for the typed rate, or for the default when the answer does not parse, and 0 for a rate of 0 |
| Driver.FrameTime | src/main.rs:69-74 | the frame interval in milliseconds is the whole part of `1000 / fps` for the flag's rate, else the typed rate, else 20; it is 0 exactly for a rate of 0 or a rate above 1000, and never more than 1000 |
| Scenarios.BlinkerRun | src/main.rs:81-103 | from the vertical blinker the loop stops at generation 2 and reports a loop from generation 0 |
| Scenarios.BlockRun | src/main.rs:81-103 | from the block the loop stops at generation 1 and reports a loop from generation 0 |

## Left out

- Terminal output (cursor moves, clearing, hiding the cursor, the final `execute!` of the buffer) is left out. `Render.PrintBoard` returns the buffer, and `Driver.Run` returns the sequence of screens shown.
- Command-line parsing and terminal-size probing (src/main.rs:1-61) are left out. The board size comes from the initial board handed to `Driver.Run`.
- `random_board` and its random source are left out. The initial board is a parameter of `Driver.Run`.
- The stdin prompt of `get_fps` is left out. `Driver.GetFps` takes its parsed answer, or `None` when it does not parse.
- Frame pacing with `sleep_until` and `Instant` (src/main.rs:79-80, 99-102, 253-259) is left out because it is clock-dependent. Only the interval is modelled.
- The floating-point average-FPS message and the closing cursor commands (src/main.rs:105-121) are left out.
- The text of the "Game started looping from generation" message is left out. `Driver.Run` returns the generation it names.
- The hashing of the history map is left out. The history is a mathematical map from fingerprints to generations.
- Stats.PopulationCount: counts in an unbounded integer, whereas the source's `u32` counter would overflow on a board with more than 4294967295 live cells.
- Driver.Run: the generation counter and board indices are unbounded; `usize` and `isize` limits are not modelled. They cannot be reached for a board that fits in memory.
- Render.PrintBoard: the buffer is a sequence of characters. The byte length of its UTF-8 encoding and the capacity hint `with_capacity` are not modelled.
- All board operations require at least one row whose length every row shares. This matches the source, which reads `board[0]` and panics on an empty board.
