# BlockPattern: a verified model of the falling-blocks board

This project models `BlockPattern`, the board engine behind the falling-blocks demo. A board is a
`rows` x `cols` grid of squares. Each square has a numeric label (`id`), an occupant (empty, blue,
red or green) and a `stable` flag. The engine builds the fresh board, resizes it, and lets the user
toggle a square through empty -> blue -> red -> green -> empty. It advances the simulation one
generation at a time, clears the board, and loads a fixed demonstration layout.

Modules, in dependency order:

- `Cells` (`cells.dfy`): squares, kinds, positional labels and the toggle cycle.
- `Grids` (`grids.dfy`): the fresh board, resizing, toggling at a position, and counting blue and red blocks.
- `Fall` (`fall.dfy`): the fall sweep of a generation, as a fold (`Run`) of one step (`FallAt`) over the sweep's visiting order (`Band`), together with the loop `FallPass` that computes it.
- `Generation` (`generation.dfy`): the other four phases of a generation and their composition `Next`. Each phase is a function plus a loop proved equal to it.
- `Preset` (`preset.dfy`): the demonstration layout and what it paints where.
- `Pattern` (`pattern.dfy`): the class `BlockPattern`, with fields `rows`, `cols`, `grid` and `generation`. Its methods update these fields in the same way the source does.

Random draws (`Math.random()`) become parameters. `Generation.Oracle` holds, for one generation:

- one gate per optional phase;
- one coin per column, or per square, that the phase visits.

`LoadPattern` takes one coin per painted square, `stableAt(row, col)`. Every property is therefore
proved for every outcome of the draws.

Behaviours of the code a reader might not expect:

- **Blocks drop one row at a time.** The fall sweep goes bottom-up over a single board, so a block
  that moves lands on a row that has already been visited and does not move again in the same
  generation. `Fall.SweepDropsAtMostOneRow` proves that every block after the sweep is the block
  that was there, or that block at rest, or the block that was directly above.
- **A block on the bottom row never comes to rest.** The sweep starts at row `rows - 2`, so it
  never visits the bottom row; whatever the draws, a falling block there is left exactly as it was,
  still falling (`Generation.NextBottomNeverSettles`).
- **Four toggles do not always restore `stable`.** Every toggle sets `stable` from the new kind:
  - four toggles always restore the kind and the label;
  - they restore `stable` only when it already matched the kind (`Cells.ToggleFour`);
  - a fresh square ends empty and *stable* (`Cells.ToggleFourFresh`).
- **A moving block keeps its label.** When a block moves down, the square below receives a copy of
  the whole cell, `id` included. The square it leaves keeps its own `id`. So after a fall two
  squares can carry the same label.
- **An always-true guard is kept.** The guard `i < this.rows - 1` in the fall sweep always holds
  inside the loop. `Fall.FallStep`, the body of the inner loop, keeps it as written.

## Model

| member | source | states |
|---|---|---|
| Pattern.BlockPattern.constructor | src/utils/pattern.js:3-9 | the object records the given size (20 x 10 by default) and holds the fresh board of that size at generation 0 |
| Pattern.BlockPattern.CreateEmptyGrid | src/utils/pattern.js:11-26 | the loop with its running counter builds exactly the fresh board: every square empty, unstable, labelled `i * cols + j + 1` |
| Grids.BlankIdsRowMajor | src/utils/pattern.js:11-26 | a fresh board has `rows * cols` squares whose labels, read row by row, are 1, 2, ..., `rows * cols` |
| Grids.BlankUnique | src/utils/pattern.js:11-26 | there is exactly one fresh board of each size |
| Grids.EmptyGrid | src/utils/pattern.js:11-26 | the fresh board as a value satisfies the fresh-board predicate |
| Pattern.BlockPattern.SetGridSize | src/utils/pattern.js:28-50 | the new size is recorded, the generation is kept, and the board becomes the resize of the old board: squares inside both sizes are kept and relabelled for the new width, all others are fresh |
| Grids.Resized | src/utils/pattern.js:28-50 | the resized board has the new dimensions |
| Grids.ResizedPositional | src/utils/pattern.js:40-43 | after a resize every label is the row-major position in the new width |
| Grids.ResizeTwice | src/utils/pattern.js:28-50 | two resizes act as one when the middle size cuts away nothing that both outer sizes keep |
| Grids.ResizeSameSize | src/utils/pattern.js:28-50 | resizing a positionally labelled board to its own size changes nothing |
| Grids.ResizeGrowShrink | src/utils/pattern.js:28-50 | growing a positionally labelled board and shrinking it back restores it |
| Grids.ResizeBlank | src/utils/pattern.js:28-50 | resizing a fresh board gives the fresh board of the new size |
| Grids.ResizeKeepsGreenStable | src/utils/pattern.js:40-43 | resizing keeps every green square stable if it was |
| Cells.IndexOfKind | src/utils/pattern.js:55 | every kind occurs in the toggle order, at the first position the search would find |
| Cells.Toggled | src/utils/pattern.js:54-62 | toggling keeps the label, moves to the next kind, and sets `stable` exactly when the new kind is green or empty |
| Cells.NextKind | src/utils/pattern.js:55-56 | the next kind differs from the current one and sits one place further along the toggle order, wrapping round after green |
| Cells.ToggleCycle | src/utils/pattern.js:8 | the toggle order is empty -> blue -> red -> green -> empty |
| Cells.ToggleFour | src/utils/pattern.js:52-65 | four toggles restore kind and label, and restore the whole square exactly when its flag already agreed with its kind |
| Cells.ToggleFourFresh | src/utils/pattern.js:52-65 | a fresh square toggled four times is empty, labelled as before, and stable |
| Pattern.BlockPattern.ToggleCell | src/utils/pattern.js:52-65 | an in-bounds square is toggled, an out-of-bounds call changes nothing, and size and generation are kept |
| Grids.ToggleAt | src/utils/pattern.js:52-65 | the toggled board has the board's dimensions; its effect on each square is stated by `Grids.ToggleAtEffect` |
| Grids.ToggleAtEffect | src/utils/pattern.js:52-65 | a toggle changes the addressed in-bounds square as the cycle says and no other square |
| Grids.ToggleAtFour | src/utils/pattern.js:52-65 | four toggles of one square restore every kind and label on the board |
| Grids.ToggleKeepsGreenStable | src/utils/pattern.js:58-62 | toggling keeps every green square stable |
| Grids.CountRowUpdate | src/utils/pattern.js:97-125 | replacing one square changes a row's block count by the difference of the two squares' weights |
| Grids.CountBlocksUpdate | src/utils/pattern.js:97-125 | replacing one row changes the board's block count by the difference of the two rows' counts |
| Grids.CountRowMono | src/utils/pattern.js:127-160 | a row that is square by square at least as heavy has at least the count |
| Grids.CountBlocksMono | src/utils/pattern.js:127-160 | a board that is square by square at least as heavy has at least the count |
| Generation.Next | src/utils/pattern.js:68-165 | the board after one generation has the board's dimensions; what it keeps is stated by the `Generation.Next...` lemmas |
| Pattern.BlockPattern.NextGeneration | src/utils/pattern.js:68-165 | the board becomes the five phases applied in order, the generation goes up by one, green squares stay green, no blue or red block is lost, and stable green stays stable |
| Generation.SpawnGreenPass | src/utils/pattern.js:72-84 | the loop computes the green-spawn phase |
| Generation.SpawnGreen | src/utils/pattern.js:72-84 | the green-spawn phase keeps the board's dimensions; its effect on each square is stated by `Generation.SpawnGreenEffect` |
| Generation.SpawnGreenEffect | src/utils/pattern.js:72-84 | a square changes exactly when it is an empty top-row square whose gate and coin are both set, and it then becomes green and stable; every other square is unchanged |
| Generation.SpawnGreenKeepsCount | src/utils/pattern.js:72-84 | green spawning leaves the number of blue and red blocks unchanged |
| Generation.FloorPass | src/utils/pattern.js:86-95 | the loop computes the floor phase, reading the previous board |
| Generation.EnforceFloor | src/utils/pattern.js:86-95 | the floor phase keeps the board's dimensions; its effect on each square is stated by `Generation.EnforceFloorEffect` |
| Generation.EnforceFloorEffect | src/utils/pattern.js:86-95 | exactly the bottom-row squares that were green on the previous board become green and stable; nothing else changes |
| Generation.EnforceFloorKeepsCount | src/utils/pattern.js:86-95 | when those squares are still green, the floor phase keeps the block count |
| Fall.Sweep | src/utils/pattern.js:97-125 | the sweep keeps the board's dimensions; its properties are the `Fall.Sweep...` lemmas |
| Fall.Run | src/utils/pattern.js:97-125 | the steps of an order, applied one after another, keep the board's dimensions |
| Fall.FallPass | src/utils/pattern.js:97-125 | the nested loops, which read and write one board, compute the sweep over rows `rows - 2` down to 0, each row left to right |
| Fall.FallStep | src/utils/pattern.js:100-122 | the inner loop's body at (i, j), with the always-true guard kept, computes exactly one step of the sweep |
| Fall.RunStep | src/utils/pattern.js:99 | visiting the next square of the current row adds exactly one step to the fold |
| Fall.BandRow | src/utils/pattern.js:98 | the order down to row i is the order down to row i + 1 followed by row i, left to right |
| Fall.FallAt | src/utils/pattern.js:100-122 | one step changes only its own square and the square below it, never creates a green square, and leaves every green square unchanged |
| Fall.Band | src/utils/pattern.js:98-99 | the visiting order stays within the requested rows and the board's width |
| Fall.BandOrder | src/utils/pattern.js:98-99 | the visiting order is strictly bottom-up and left to right, and it covers every square above the bottom row |
| Fall.SplitSorted | src/utils/pattern.js:98-99 | a step splits a sorted order into the steps visited before it and those visited after |
| Fall.SplitSweep | src/utils/pattern.js:98-99 | the sweep splits at any square above the bottom row into earlier and later steps |
| Fall.RunAppend | src/utils/pattern.js:97-125 | running two orders one after the other equals running their concatenation |
| Fall.RunOne | src/utils/pattern.js:100-122 | running a single step is that step |
| Fall.RunAround | src/utils/pattern.js:97-125 | the sweep is the earlier steps, then the step itself, then the later steps |
| Fall.RunFrame | src/utils/pattern.js:97-125 | a square that no step of an order writes is left unchanged |
| Fall.RunKeepsEmpty | src/utils/pattern.js:104-115 | an empty square that no step can drop into stays as it is |
| Fall.FallAtKeepsAnchored | src/utils/pattern.js:102 | a step leaves every anchored square alone (occupied, and at rest or on the bottom row) |
| Fall.RunKeepsAnchored | src/utils/pattern.js:97-125 | anchored squares survive any order of steps unchanged |
| Fall.RunGreenUnchanged | src/utils/pattern.js:97-125 | a green square after any order of steps was there, unchanged, before them |
| Fall.MoveKeepsCount | src/utils/pattern.js:104-115 | moving a block down into an empty square keeps the block count |
| Fall.FallAtKeepsCount | src/utils/pattern.js:100-122 | one step keeps the block count |
| Fall.RunKeepsCount | src/utils/pattern.js:97-125 | any order of steps keeps the block count |
| Fall.SweepKeepsCount | src/utils/pattern.js:97-125 | the sweep neither creates nor destroys blue or red blocks |
| Fall.SweepKeepsAnchored | src/utils/pattern.js:97-125 | the sweep leaves every anchored square unchanged |
| Fall.SweepGreenUnchanged | src/utils/pattern.js:97-125 | every green square after the sweep is the same square as before it |
| Fall.SweepStabilises | src/utils/pattern.js:116-122 | a falling block above an anchored square comes to rest where it is |
| Fall.SweepFalls | src/utils/pattern.js:104-115 | a falling block above an empty square ends one row lower, as the same cell |
| Fall.FallAtHere | src/utils/pattern.js:100-122 | the step at a square leaves there the old cell, the old cell at rest, or an empty cell |
| Fall.FallAtAbove | src/utils/pattern.js:104-115 | the step above a square leaves there the old cell or the falling block from above |
| Fall.SweepInterior | src/utils/pattern.js:97-125 | an interior square after the sweep is empty, or its old cell (possibly at rest), or the cell from directly above |
| Fall.SweepTop | src/utils/pattern.js:97-125 | a top-row square after the sweep is empty or its old cell, possibly at rest |
| Fall.SweepBottom | src/utils/pattern.js:97-125 | a bottom-row square after the sweep is its old cell, never brought to rest, or else the block from directly above, which was falling |
| Fall.SweepDropsAtMostOneRow | src/utils/pattern.js:97-125 | every blue or red square after the sweep is the block that was there (possibly now at rest) or the block from directly above |
| Generation.SpawnPass | src/utils/pattern.js:127-139 | the loop computes the block-spawn phase |
| Generation.SpawnBlocks | src/utils/pattern.js:127-139 | the block-spawn phase keeps the board's dimensions; its effect on each square is stated by `Generation.SpawnBlocksEffect` |
| Generation.SpawnBlocksEffect | src/utils/pattern.js:127-139 | a square changes exactly when it is an empty top-row square whose gate and coin are both set, and it then becomes an unstable block, blue or red as its colour coin says; every other square is unchanged |
| Generation.SpawnBlocksAddsCount | src/utils/pattern.js:127-139 | spawning never lowers the block count |
| Generation.RecolourPass | src/utils/pattern.js:141-160 | the nested loops compute the recolour phase |
| Generation.Recolour | src/utils/pattern.js:141-160 | the recolour phase keeps the board's dimensions; its effect on each square is stated by `Generation.RecolourEffect` |
| Generation.RecolourEffect | src/utils/pattern.js:141-160 | a square changes exactly when it is a stable blue or red block whose gate and coin are set, and it then turns into the other block colour with label and flag kept; every other square is unchanged |
| Generation.RecolourKeepsCount | src/utils/pattern.js:141-160 | recolouring keeps the block count |
| Generation.NextKeepsGreen | src/utils/pattern.js:68-165 | a square green before a generation is green after it |
| Generation.NextFloorGreen | src/utils/pattern.js:86-95 | a bottom-row square that was green is green and stable after a generation |
| Generation.NextKeepsGreenStable | src/utils/pattern.js:68-165 | if every green square was stable before a generation, every green square is stable after it |
| Generation.NextNeverLosesBlocks | src/utils/pattern.js:68-165 | a generation never lowers the block count, and keeps it when no block-spawn pass happens |
| Generation.SilentNext | src/utils/pattern.js:68-165 | with every gate closed, a generation is the floor phase followed by the sweep |
| Generation.SilentFalls | src/utils/pattern.js:104-115 | with the gates closed, a falling block above an empty square moves down one row |
| Generation.SilentStabilises | src/utils/pattern.js:116-122 | with the gates closed, a falling block comes to rest when the square below is occupied and either at rest or on the bottom row |
| Generation.NextBottomNeverSettles | src/utils/pattern.js:68-165 | for every outcome of the draws, a falling block on the bottom row is the same cell after a generation, still falling |
| Generation.SilentBottomNeverSettles | src/utils/pattern.js:98 | with the gates closed, a falling block on the bottom row stays there, still falling |
| Pattern.BlockPattern.Clear | src/utils/pattern.js:167-171 | the board is the fresh board of the current size and the generation is 0 |
| Pattern.BlockPattern.LoadPattern | src/utils/pattern.js:173-221 | the board is the fresh board with green, stable top and bottom rows, painted with the six blocks; the generation is 0, and every green square is stable |
| Pattern.BlockPattern.PaintGreenRow | src/utils/pattern.js:177-193 | the loop turns one whole row green and stable and changes nothing else |
| Pattern.BlockPattern.PaintLayout | src/utils/pattern.js:206-218 | the loop over the six blocks paints them in order, one block per pass |
| Pattern.BlockPattern.PaintBlock | src/utils/pattern.js:206-218 | the two inner loops paint one block's rows and columns |
| Preset.PresetGrid | src/utils/pattern.js:173-221 | the loaded board has the board's dimensions; its squares are stated by `Preset.PresetFrame`, `Preset.PresetTargets` and `Preset.PresetElsewhere` |
| Preset.GreenRow | src/utils/pattern.js:177-193 | every square of the row becomes green and stable with its label kept, and every other row is unchanged |
| Preset.PaintCell | src/utils/pattern.js:209-215 | painting one target keeps the board's dimensions; that a target on the floor or beyond the width is skipped is stated by `Preset.PaintColsEffect` |
| Preset.PaintCols | src/utils/pattern.js:208-216 | painting a row's columns keeps the board's dimensions; its effect is stated by `Preset.PaintColsEffect` |
| Preset.PaintRows | src/utils/pattern.js:207-217 | painting a block keeps the board's dimensions; its effect is stated by `Preset.PaintRowsEffect` |
| Preset.PaintBlocks | src/utils/pattern.js:206-218 | painting all blocks keeps the board's dimensions; its effect is stated by `Preset.PaintBlocksEffect` |
| Preset.PaintColsEffect | src/utils/pattern.js:208-215 | painting a row's columns changes exactly the listed squares of that row that lie above the floor |
| Preset.PaintRowsEffect | src/utils/pattern.js:207-217 | painting one block changes exactly the squares it covers above the floor |
| Preset.PaintBlocksEffect | src/utils/pattern.js:206-218 | after all blocks, each square above the floor holds the kind of the last block that covers it, with that square's coin as its flag; every other square is unchanged |
| Preset.CoverKind | src/utils/pattern.js:206-218 | a square has paint exactly when some block covers it, and that paint is the kind of a covering block |
| Preset.CoverKindBlock | src/utils/pattern.js:196-204 | when every block is blue or red, any paint left on a square is blue or red |
| Preset.PatternsShape | src/utils/pattern.js:196-204 | no block of the layout reaches the top row, and every block is blue or red |
| Preset.PatternsDisjoint | src/utils/pattern.js:196-204 | no two blocks of the layout cover a common square |
| Preset.PatternsNoRepeats | src/utils/pattern.js:196-204 | no block of the layout lists a row or a column twice |
| Preset.CoverKindDisjoint | src/utils/pattern.js:206-218 | in a disjoint layout, the paint on a covered square is the kind of the block covering it |
| Preset.Framed | src/utils/pattern.js:175-193 | the board after the clear and the two green-row loops has the board's dimensions; its squares are stated by `Preset.FramedCell` |
| Preset.FramedCell | src/utils/pattern.js:175-193 | after the clear and the two green rows, the top and bottom rows are green and stable and the rest is fresh |
| Preset.PresetFrame | src/utils/pattern.js:177-193 | on the loaded board, the top and bottom rows are green and stable, and keep their positional labels |
| Preset.PresetTargets | src/utils/pattern.js:206-218 | every target square above the floor and inside the width holds its block's kind, with its coin as flag |
| Preset.PresetElsewhere | src/utils/pattern.js:173-221 | every square strictly between the green rows that no block covers is fresh |
| Preset.PresetCellGreenStable | src/utils/pattern.js:173-221 | a green square of the loaded board is stable |
| Preset.PresetGreenStable | src/utils/pattern.js:173-221 | on the loaded board every green square is stable |
| Pattern.BlockPattern.GetGrid | src/utils/pattern.js:223-225 | returns the current board, which has the recorded dimensions |

## Left out

- Probabilities. The constants 0.3, 0.1, 0.4, 0.15, 0.5, 0.2 and 0.7, and the floating-point comparisons with `Math.random()`, are replaced by boolean outcomes: gates and coins in `Generation.Oracle`, and `stableAt` in `LoadPattern`. Statements about likelihood are therefore out of scope.
- Coins are indexed by position, not drawn from a stream. The source draws each coin in loop order, and those draws are independent, so indexing them by position gives the same set of possible outcomes.
- `LoadPattern`: one coin per square. A square painted twice would draw two coins in the source but read `stableAt` twice here. `Preset.PatternsDisjoint` proves that no two blocks share a square, and `Preset.PatternsNoRepeats` that no block lists a row or a column twice, so no square of the layout is painted twice and the two agree.
- `NextGeneration`: the `JSON.parse(JSON.stringify(...))` deep copy. Boards are values, so the copy is a plain assignment.
- `NextGeneration`: the `hasChanges` flag. The source computes it and never reads it.
- `GetGrid`, and the boards every method returns: not modelled as aliases. In the source, callers receive the live array, and can mutate the object's board through it.
- `SetGridSize`: the `if (this.grid)` test. It succeeds on every object the constructor can build, so the copy always runs.
- `SetGridSize` and the constructor: sizes are natural numbers. Negative or fractional sizes, which JavaScript would accept, are not modelled.
- `NextGeneration` and `LoadPattern` require at least one row. With zero rows and at least one column, the source reads a missing row and throws a TypeError. The requirement also excludes the 0 x 0 board, on which both operations do nothing harmful in the source. The other operations accept a zero-size board.
- The React component that runs generations on a timer and renders the board (`src/components/BlockPatternApp.js`) is not part of this model, and neither is the size bound of 5 to 50 that it enforces.
