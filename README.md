# A Dafny model of the hand-gesture 2048 game

`script.js` is a browser version of 2048. It has two input paths:

- the arrow keys;
- a webcam hand tracker. The player pinches with the hand over the game container and swipes the palm to move the tiles.

This project models the game logic of that script and the gesture state machine in front of it, then proves properties of both.

Game logic:

- `moveTiles`: the guard, the four slides with their splice-based merge loops, the `moved` check, and the lock set after a move.
- `addRandomTile`, `initGame`, `updateScore` and `checkGameOver`.

Gesture state machine:

- the hand branch and the no-hand branch of `onHandResults`;
- the swipe rule;
- the geometry of the cursor area (`updateGameBounds` and the bounds checks and clamp);
- the six-way category choice of `updateStatusIndicators`.

The files:

- `optional.dfy`: `Option`, for JavaScript's `null`.
- `lines.dfy` (`Lines`): one line of four cells.
  - The specification functions are `NonZero`, `Merge`, `CollapseLeft` and `CollapseRight` (with `LeftGain` and `RightGain` for the points).
  - Each splice loop is a method proved equal to them.
  - Lemmas cover conservation, tiles, score and worked examples.
- `grid.dfy` (`Grid`): the 4×4 board as a value.
  - `Slide` is the four directions. Up and down go through the transpose.
  - `EmptyCells`, `SpawnCell` and `Spawn` model `addRandomTile`.
  - `IsStuck` is the end condition.
- `bounds.dfy` (`Bounds`): the container box, the cursor area 80 px around it, and the 25 px clamp.
- `gesture.dfy` (`Gesture`): the swipe rule (`SwipeTrack`, `SwipeDirection`) and the status choice (`StatusOf`).
- `game.dfy` (`Game`): the two layers of the game.
  - The script's module-level variables are collected in the value `World`. Each operation is a function on it (`InitGameSpec`, `MoveSpec`, `FrameSpec`), and the lemmas about several calls are stated over these functions.
  - The class `Game` has those variables as fields. Its methods follow the statements of the script. Each is proved to leave `Snapshot()` (the fields read as a `World`) equal to its specification function applied to the old snapshot.

A camera frame is the value `Frame`. It is either `Absent` (no hand) or `Present`, and a present frame carries:

- the pinch flag;
- the palm position on screen;
- the container's box;
- the frame's `Date.now()`;
- the two random numbers a tile spawn would draw (`Draw`).

The script reads the clock several times within one frame. The model uses one time per frame.

## Model

| member | source | states |
|---|---|---|
| Lines.NonZero | script.js:194 | The `filter(v => v !== 0)` of a line, never longer than the line. `Lines.NonZeroElements` states that it keeps only values of the line and no 0. |
| Lines.Merge | script.js:195-201 | The merge of the compacted tiles: each pair of equal neighbours, taken from the start, becomes its double once. It is never longer than its input. `Lines.MergeScanLeft` ties the splice loop to it, and the three examples show its pairing. |
| Lines.CollapseLeft | script.js:194-203 | A line moved left, with the same length as the line: the merged tiles followed by zeros. `Lines.CollapseLineLeft` ties the loop to it. `Lines.CollapseLeftSum`, `Lines.CollapseLeftCount` and `Lines.NonZeroOfCollapse` state its properties. |
| Lines.CollapseRight | script.js:206-217 | A line moved right, with the same length as the line: the left move of the mirrored line, mirrored back. `Lines.CollapseLineRight` and `Lines.RightByMirror` tie the loop to it. `Lines.CollapseRightSum` and `Lines.CollapseRightCount` state its properties. |
| Lines.MergeScanLeft | script.js:195-201 | The ascending splice loop turns the compacted tiles into `Merge(tiles)`: each pair of equal neighbours, taken from the start, merges once into its double, and a merged tile is not compared again. Its score gain is `MergeGain(tiles)`, the sum of the doubled values. |
| Lines.PadBack | script.js:202 | Pushing zeros until the line has 4 cells gives the tiles followed by as many zeros as there are missing cells. |
| Lines.CollapseLineLeft | script.js:194-203 | The filter, the merge loop and the padding of the `left` branch give exactly `CollapseLeft(line)`, and add exactly `LeftGain(line)` to the score. |
| Lines.MergeScanRight | script.js:208-215 | The descending loop, with its extra `i--` after a merge, gives the reverse of merging the reversed tiles, and gains `MergeGain` of the reversed tiles. |
| Lines.PadFront | script.js:216 | Unshifting zeros until 4 cells gives as many zeros as there are missing cells, followed by the tiles. |
| Lines.CollapseLineRight | script.js:206-217 | The `right` branch for one line gives exactly `CollapseRight(line)` and gains `RightGain(line)`. |
| Lines.RightByMirror | script.js:205-218 | A move to the right is the left move of the mirrored line, mirrored back: zeros in front of the reversed merge of the reversed tiles, with the same gain. |
| Lines.NonZeroElements | script.js:194 | The filter keeps only values of the line, and none of them is 0. |
| Lines.NonZeroOfCollapse | script.js:194-203 | The tiles of a collapsed line are exactly the merged tiles, in order. |
| Lines.CollapseLeftSum | script.js:194-203 | Moving a line left keeps the sum of its cells. |
| Lines.CollapseRightSum | script.js:206-217 | Moving a line right keeps the sum of its cells. |
| Lines.CollapseLeftCount | script.js:194-203 | Moving left never adds a tile, and a move that keeps the tile count scores nothing. |
| Lines.CollapseRightCount | script.js:206-217 | Moving right never adds a tile, and a move that keeps the tile count scores nothing. |
| Lines.UnchangedLeftScoresNothing | script.js:194-203 | A line that moving left leaves unchanged scores 0. |
| Lines.UnchangedRightScoresNothing | script.js:206-217 | A line that moving right leaves unchanged scores 0. |
| Lines.CollapseLeftTiles | script.js:196-198 | If every cell is empty or a power of two, the same holds after moving left. |
| Lines.CollapseRightTiles | script.js:209-211 | If every cell is empty or a power of two, the same holds after moving right. |
| Lines.GainNonNegative | script.js:198 | On a line of tiles, a move in either direction never lowers the score. |
| Lines.FullLineIsFixed | script.js:194-217 | A line with no empty cell and no two equal neighbours is unchanged by a move either way. |
| Lines.ChainExample | script.js:194-203 | For any tile value `a`, `[a,a,a,0]` moved left is `[2a,a,0,0]` with gain `2a`: the first pair merges and the third tile stays single. |
| Lines.NoDoubleMergeExample | script.js:194-203 | `[a,a,a,a]` moved left is `[2a,2a,0,0]` with gain `4a`. |
| Lines.MergedTileNotRemergedExample | script.js:194-203 | `[a,a,2a,0]` moved left is `[2a,2a,0,0]` with gain `2a`: the new `2a` is not merged again in the same move. |
| Lines.RightChainExample | script.js:206-217 | `[a,a,a,0]` moved right is `[0,0,a,2a]` with gain `2a`: the pair nearest the right edge merges. |
| Grid.EmptyBoard | script.js:119 | `initGame`'s board is 4×4 with every cell 0. |
| Grid.EmptyBoardHasNoTiles | script.js:119 | The fresh board has no tile and sums to 0. |
| Grid.Column | script.js:221-222 | The column read for `up` and `down` holds `grid[r][c]` for each row `r`. |
| Grid.SetColumn | script.js:232 | Writing a column back changes the cells of column `c` to the new values and keeps every other cell. |
| Grid.Slide | script.js:192-250 | The board after a move in one direction: every row, or every column, collapsed toward that side. It is always a 4×4 board. `Grid.SlideConserves`, `Grid.SlideKeepsTiles` and `Grid.StuckIsFixed` state its properties. |
| Grid.SlideConserves | script.js:192-250 | In every direction, a slide keeps the board's sum and never adds a tile. |
| Grid.SlideKeepsTiles | script.js:192-250 | A slide keeps every cell empty or a power of two. |
| Grid.SlideGainNonNegative | script.js:198 | The points of a slide, in any direction, are not negative. |
| Grid.UnmovedScoresNothing | script.js:252-257 | A slide that changes no cell adds nothing to the score. |
| Grid.IsStuck | script.js:313-333 | The board has no empty cell and no two equal neighbours in any row or column. `Grid.StuckByCells` ties it to the two loops of `checkGameOver`, and `Grid.StuckIsFixed` shows no move changes such a board. |
| Grid.StuckByCells | script.js:313-333 | The board is stuck exactly when the first double loop finds no empty cell and the second finds no cell equal to its right or lower neighbour. |
| Grid.StuckIsFixed | script.js:313-333 | On a stuck board, a slide in any direction changes nothing. |
| Grid.StuckExamples | script.js:313-333 | A full checkerboard of 2s and 4s is stuck. The same board with one empty cell is not. |
| Grid.EmptyCells | script.js:134-141 | Every listed cell is inside the board and empty. |
| Grid.EmptyCellsComplete | script.js:134-141 | Every empty cell is listed. |
| Grid.EmptyCellsLength | script.js:134-141 | The list has 16 minus the tile count entries. |
| Grid.Pick | script.js:143 | `Math.floor(u * n)` for `0 <= u < 1` is a valid index below `n`. |
| Grid.NewTileValue | script.js:144 | The new tile is a 2 exactly when the draw is below 0.9, and a 4 otherwise, so it is always a power of two. |
| Grid.SpawnCell | script.js:142-147 | There is no cell exactly when the list is empty (the `null` return); otherwise the cell is one of the listed empty cells. |
| Grid.Spawn | script.js:133-148 | The board after `addRandomTile`, always 4×4: the picked empty cell gets the new tile. `Grid.SpawnEffect`, `Grid.SpawnKeepsTiles` and `Grid.SpawnKeepsSmallTiles` state its properties. |
| Grid.SpawnEffect | script.js:133-148 | A board with an empty cell gets exactly the picked cell filled with the new value: every other cell is kept and the tile count rises by one. A full board is left as it is. |
| Grid.SpawnKeepsTiles | script.js:144 | A new tile keeps every cell empty or a power of two. |
| Grid.SpawnKeepsSmallTiles | script.js:144 | A board whose cells are all 0, 2 or 4 stays so after a new tile. |
| Grid.FullBoardHasNoEmptyCell | script.js:134-142 | A board without a 0 has 16 tiles and an empty cell list. |
| Bounds.UpdateGameBounds | script.js:71-84 | The inner box is the container. The cursor area's left and top edges lie exactly 80 px before the container's, and its right and bottom edges exactly 80 px after. So it is 160 px wider and taller. |
| Bounds.IsInsideGameBounds | script.js:87-90 | Whether a point lies in the cursor area, edges included. `Bounds.InnerInsideOuter` and `Bounds.ClampedCursorInArea` state its properties. |
| Bounds.IsInsideInnerBounds | script.js:101-104 | Whether a point lies over the container, edges included. `Bounds.InnerInsideOuter` shows such a point is also in the cursor area. |
| Bounds.Clamp | script.js:95-96 | `Math.max(lo, Math.min(hi, v))` stays in `[lo, hi]` when that range is non-empty. It keeps a value inside the range, gives `lo` below it and `hi` above it. |
| Bounds.ConstrainToGameBounds | script.js:93-98 | The clamped cursor stays at least 25 px inside each edge of the cursor area whenever the area is wide and tall enough. |
| Bounds.InnerInsideOuter | script.js:86-104 | A point inside the container is also inside the cursor area. |
| Bounds.ClampedCursorInArea | script.js:71-98 | For any container, the clamped cursor lies inside the cursor area, at least 25 px from its edges, and a point over the container is not moved. |
| Gesture.SwipeDirection | script.js:492-497 | The swipe is horizontal exactly when the absolute horizontal travel is strictly greater than the absolute vertical travel. It is right exactly when it is horizontal and `dx > 0`. It is down exactly when it is vertical and `dy > 0`. |
| Gesture.SwipeFollowsHand | script.js:492-497 | For any nonzero travel, the chosen direction is one the palm moved along, and at least as far as it moved across. |
| Gesture.SwipeTrack | script.js:480-511 | Without an origin, the frame anchors one and does not fire. It fires exactly when the distance exceeds 80 px and fewer than 700 ms have passed. A swipe that fires clears the origin and picks `SwipeDirection` of the travel. Otherwise an origin more than 700 ms old is re-anchored and a younger one is kept. |
| Gesture.NoBackToBackSwipes | script.js:499-505 | The frame after a swipe fired cannot fire. |
| Gesture.StaleOriginNeverFires | script.js:488-510 | An origin exactly 700 ms old neither fires nor moves. An older one is replaced by the current position and does not fire. |
| Gesture.StatusOf | script.js:550-598 | On a hand frame the category is never `NoHand`, and it is `ControlActive` exactly when control mode is active. |
| Gesture.StatusPartition | script.js:550-598 | With control mode computed as in the hand branch, each of the six categories holds exactly under one disjoint condition on pinch, lock, container check and cursor-area check. |
| Game.NewBest | script.js:305-308 | The best score after `updateScore` is the larger of the best score and the score. |
| Game.InitGameSpec | script.js:118-125 | `initGame` on the variables: an empty board with two spawned tiles, score 0, not over, and the best score updated. `Game.InitGameEffect` and `Game.InitGameConsistent` state its properties. |
| Game.FirstTile | script.js:118-123 | After the first `addRandomTile` of a new game, the board holds exactly one tile and its sum is that tile's value. |
| Game.NewBoard | script.js:118-124 | A new game's board holds exactly two tiles and is not stuck. Its sum is exactly the two drawn tile values added together, so it lies between 4 and 8. |
| Game.NewBoardCells | script.js:118-124 | Every cell of a new game's board is 0, 2 or 4. |
| Game.InitGameEffect | script.js:118-125 | `initGame` gives two tiles, each cell 0, 2 or 4, summing to exactly the two drawn values. The score is 0 and the game is not over. It keeps the best score and changes no other variable. |
| Game.InitGameConsistent | script.js:118-125 | After `initGame` the variables are consistent: a 4×4 board of tiles, score within the best, `gameOver` exactly when stuck, and control only while pinching and unlocked. |
| Game.SpawnAddsValue | script.js:142-147 | A new tile raises the board's sum by its value. A full board keeps its sum. |
| Game.MoveSpec | script.js:185-286 | `moveTiles` on the variables: the guard, the slide, and on a change the time, the lock, the best score, a new tile and the end check. The board stays 4×4. `Game.MoveGuard`, `Game.MoveLocks`, `Game.MoveKeepsConsistent` and `Game.CooldownBlocksSecondMove` state its properties. |
| Game.MoveGuard | script.js:186-259 | A move happens exactly when the game is not over, at least 300 ms have passed since the last move, and the slide changes some cell. A move that does not happen leaves every variable as it was, including the score. |
| Game.MoveLocks | script.js:259-265 | A move that happens records its time, sets the lock and ends control mode. It touches no other gesture variable. |
| Game.MoveKeepsOrigin | script.js:259-265 | A move that happens ends control mode and leaves a pending swipe origin as it was. |
| Game.MoveKeepsConsistent | script.js:185-286 | A move keeps the variables consistent and never lowers the score or the best score. It raises the board's sum by at most 4, the new tile. |
| Game.SlideThenSpawn | script.js:192-281 | Sliding and then spawning keeps every cell a tile and raises the sum by at most 4. |
| Game.CooldownBlocksSecondMove | script.js:186-260 | After a move that happened, any move less than 300 ms later changes nothing. |
| Game.StuckBoardNeverMoves | script.js:186-257 | On a stuck board no move changes anything, whether or not `gameOver` is set. |
| Game.HandLost | script.js:518-538 | The no-hand branch: it clears the hand flags, control mode, the lock and the swipe origin. `Game.ReturningHandStartsOver` states what follows for the next frame. |
| Game.Pinched | script.js:408-421 | The pinch bookkeeping: the hand is detected, the previous pinch state is kept, and a release clears the lock. `Game.LockProtocol` states the lock rule this gives. |
| Game.Placed | script.js:423-449 | The cursor bookkeeping: the container check, control mode as pinching, over the container and unlocked, and a clamped cursor only inside the cursor area. `Game.Indicator` and `Game.FrameKeepsConsistent` state its properties. |
| Game.Indicator | script.js:474-598 | The category shown on a hand frame is never `NoHand`, and it is `ControlActive` exactly when control mode is active after the hand bookkeeping. |
| Game.SwipeSpec | script.js:479-516 | Only an active frame can move or keep a swipe origin. A frame that issues a command leaves no origin. A move implies a command. |
| Game.FrameSpec | script.js:400-540 | After any frame, a command leaves no swipe origin, a move implies a command, and a swipe origin is kept only while control mode is active. |
| Game.FrameKeepsConsistent | script.js:400-540 | Every frame keeps the variables consistent and never lowers the score or the best score. |
| Game.LockProtocol | script.js:419-421 | After a frame the lock is set exactly when the frame moved the board, or when the lock was set and the frame shows a hand without a pinch release. The lock is cleared by a release or by a lost hand, and set by a move (script.js:258-265). |
| Game.LockedPinchIsInert | script.js:444-500 | While the lock is set and the pinch held, a frame issues no command, moves nothing, keeps board and score, and keeps the lock. |
| Game.NoBackToBackCommands | script.js:499-505 | The frame after one that issued a swipe command issues none. |
| Game.ReturningHandStartsOver | script.js:518-538 | After a frame without a hand, the next frame issues no command and leaves the lock clear. |
| Game.OneMovePerPinch | script.js:258-265 | Over any run of frames that all show a held pinch, the board moves at most once, and not at all when the lock was already set. The lock is cleared at script.js:419-421. |
| Game.OverFrameIsInert | script.js:186 | While the game is over, a frame does not move and keeps the board, the score and `gameOver`. |
| Game.GameOverIsFinal | script.js:186-329 | Once the game is over, no run of frames moves the board or changes the score, and the game stays over. |
| Game.Game.constructor | script.js:6-28 | Loading the script sets the initial variables, with the stored best score, and calls `initGame` (script.js:700-702). The result is `InitGameSpec` of those values, and it is consistent. |
| Game.Game.InitGame | script.js:118-125 | The method leaves the variables as `InitGameSpec` says: an empty board with two spawned tiles, score 0, not over, best score updated. Afterwards `Valid` holds whenever the best score was not negative and control mode was active only while pinching and unlocked, so in particular when `Valid` held before. |
| Game.Game.ClearBoard | script.js:119-122 | The first half of `initGame`: an empty board, score 0, not over, and the best score brought up to date. Nothing else changes. |
| Game.Game.UpdateScore | script.js:303-310 | Only the best score changes, to `NewBest`. |
| Game.Game.AddRandomTile | script.js:133-148 | The nested loop lists the empty cells. The method sets `grid` to `Spawn(old grid)` and changes nothing else. It returns `null` (`None`) exactly when no cell is empty, and otherwise returns the picked cell and its new value. |
| Game.Game.CheckGameOver | script.js:313-333 | The result is true exactly when the board is stuck. Only `gameOver` changes, and only from false to true. |
| Game.Game.SlideRows | script.js:192-218 | The row loop of `left` and `right` sets the grid to every row collapsed, and adds the rows' gains to the score. |
| Game.Game.ReadColumn | script.js:221-222 | Reading a column with a `push` loop gives `Column(grid, c)`. |
| Game.Game.WriteColumn | script.js:232 | The write-back loop sets the grid to `SetColumn(old grid, c, col)`. |
| Game.Game.SlideColumn | script.js:220-233 | One column of `up` or `down` is collapsed in place. Every other column is kept, and the score rises by that column's gain. |
| Game.Game.SlideColumns | script.js:219-249 | The column loop gives the transpose of the collapsed rows of the transposed board, and adds their gains to the score. |
| Game.Game.Differs | script.js:252-257 | The comparison loop answers true exactly when the boards differ. |
| Game.Game.SlideBoard | script.js:191-250 | The direction branch sets the grid to `Slide(old grid, direction)` and adds `SlideGain` to the score. |
| Game.Game.MoveTiles | script.js:185-286 | The variables after the call and the result `moved` are exactly `MoveSpec` of the old variables, and `Valid` is kept. |
| Game.Game.PlayMove | script.js:191-285 | Past the guard, the slide and the follow-up give exactly `MoveSpec` of the old variables. |
| Game.Game.AfterMove | script.js:259-281 | A move that changed the board records the time, locks, and updates the best score. Then it spawns a tile and checks for the end. The result is `MovedWorld`. |
| Game.Game.ClearHand | script.js:518-539 | The no-hand branch clears every hand flag, the lock and the swipe origin, as `HandLost` says. |
| Game.Game.TrackPinch | script.js:408-421 | The pinch bookkeeping sets the hand detected, keeps the previous pinch state and unlocks on a release, as `Pinched` says. |
| Game.Game.PlaceCursor | script.js:423-449 | The cursor bookkeeping, as `Placed` says: it sets the container check and control mode, and clamps the cursor only inside the cursor area. |
| Game.Game.TrackSwipe | script.js:480-511 | The returned direction is `SwipeTrack`'s. The origin is `SwipeTrack`'s when nothing fires; when a swipe fires, the origin is left for the caller. |
| Game.Game.HandleSwipe | script.js:479-516 | The swipe block leaves the variables as `SwipeSpec` says. |
| Game.Game.OnHandResults | script.js:400-540 | The handler leaves the variables as `FrameSpec` says, returns the category `FrameSpec` gives, and keeps `Valid`. |

## Left out

- The page: rendering and tile elements (`renderGrid`, `createTile`), the hand skeleton (`drawHandSkeleton`), the cursor's CSS classes and opacity, `showDirectionFeedback`, the guide dialog, and all text of `updateStatusIndicators`. The model keeps only the category it chooses.
- gsap timing. The tile spawn in `moveTiles` runs in an animation callback (script.js:276-281). The model runs `updateScore`, `addRandomTile` and `checkGameOver` right after the move, as if no frame or key came between.
- The camera and MediaPipe: `setupHandTracking` and `detectPinch`. The pinch flag and the palm's screen position are given by the frame, so the mapping from landmarks to screen (script.js:424-431) is not part of this model.
- `localStorage`. The stored best score is a constructor parameter, and writing it back is not modelled.
- `Math.random`. Each spawn takes a `Draw` of two numbers in `[0, 1)`; no distribution is claimed.
- Floating point. Coordinates are reals, and `Math.sqrt(d) > 80` is compared as `d > 6400`, which is the same on exact reals.
- The keyboard handler (script.js:679-692) only maps the arrow keys to `moveTiles`. The model covers the move itself, not the key map or the event.
- `updateGameBounds` runs at the start of every frame, so the model recomputes the bounds from the container box each frame. The `setTimeout` call in `initGame` and the resize listener are not modelled.
- Order of the origin reset: the script clears the swipe origin after `moveTiles` returns. The method does the same, so `TrackSwipe` leaves the origin in place when a swipe fires. `moveTiles` does not read or write the origin, so the result is the same.
- Keyboard moves during a swipe: an arrow key handled while the hand holds a swipe origin runs `moveTiles`, which ends control mode but leaves the origin (`Game.MoveKeepsOrigin`). Until the next frame clears it, the origin then outlives control mode. So "an origin only while control mode is active" holds after every frame (`Game.FrameSpec`) but is not part of `Game.Consistent`, which holds after keyboard moves too.
- Diagonal swipes: a diagonal swipe with `|dx| == |dy|` counts as vertical, because the code compares strictly. This follows the code, not a "dominant axis" reading that would include the tie.
