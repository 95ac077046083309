# Gravity Dash simulation in Dafny

A model of the game simulation of Gravity Dash, a Flappy-Bird-style Android game,
together with proofs about it. The player's icon falls under gravity and jumps on
a tap. Three pipe pairs scroll in from the right and are recycled once they leave
the screen. Clearing the tracked pipe (pool slot 0) scores a point. Touching
pipe 0, the top of the screen or the bottom of the screen ends the run.

The model is pure and deterministic: every operation is a function from state to
state. The random gap positions are passed in as arguments, each constrained to
the range `Random.nextInt` would draw from.

Modules, one per part of the program:

- `JavaMath` (java_math.dfy): Java's truncating integer division, `Math.max` and `Math.abs`.
- `Geometry` (geometry.dfy): `android.graphics.Rect` and `Rect.intersects`. Rectangles that only touch along an edge do not intersect.
- `Icons` (icons.dfy): the `Icon` class. It holds a fixed x, a y clamped at 0 and a velocity. The velocity gains `GRAVITY / 2 = 1` per step and y moves by `velocity / 2`, truncated toward zero. A jump sets the velocity to -30.
- `Pipes` (pipes.dfy): the `Pipe` class. A pipe has an x that drops by 7 per step and a gap top `gapY` drawn from `[gap + 100, gap + 100 + max(1, screenHeight - 2*gap - 200))`. Its top and bottom rectangles are 75 wide.
- `Session` (session.dfy): the non-UI part of `MainActivity`, namely
  - starting a game and `initializePipes`;
  - the game-loop runnable (`Tick`);
  - `updatePipes`, `checkCollisions` and `handleCollision`;
  - the touch handler;
  - `onPause`/`onResume` and the pause dialog's play button, reduced to the flags they set.
- `Traces` (traces.dfy): runs of events and the invariants every run keeps. A start event is the start as coded.
- `Passes` (passes.dfy): scoring over runs of events, whatever the player does in between.
- `Restart` (restart.dfy): the restart finding below, with a concrete run that shows it.
- `Recycling` (recycling.dfy): how a recycled pipe's new x depends on its slot in the pool.

The view coordinates the activity reads are integers equal to the model state:
- the displayed icon stands at x = 100 and is 75 × 75;
- the pipe views are 75 wide and exactly as tall as the rectangles they are laid out from.

The displayed icon's y (`shownY`) is kept as its own field. The loop copies the
icon's y into it only when the two differ by more than one pixel, and the
collision and scoring tests read `shownY`, as the code does. The pipe views are
laid out from pipe 0 after it moves and before it is recycled in the same step,
so the collision test uses that pre-recycle position.

The accessors `getY`, `getX` and `getWidth` are the datatype fields `Icon.y`,
`Pipe.x` and the constant `Pipes.WIDTH`.

Behaviours of the code that are easy to misread, which the model keeps:
- The gap's lowest position is `gap + 100`, not 100.
- The pass flag is re-armed when pipe 0's right edge goes below x = 0, not when it passes the icon.
- Scoring compares the icon's left edge (x = 100) with pipe 0's right edge.
- The screen-bound test fires when the displayed icon touches the top or bottom (`y <= 0`, `y + 75 >= height`), not when it fully leaves the screen.
- Pause is only the running flag, not a separate state.
- Starting a game resets neither the score nor the pass flag. The event model (`Traces.Step`) starts games this way. `Session.Start` is the corrected start; see Findings.

## Model

| member | source | states |
|---|---|---|
| JavaMath.JavaDiv | app/src/main/java/edu/commonwealthu/finalproject/Icon.java:52 | Java `/` by a positive divisor truncates toward zero: the remainder is smaller than the divisor in size and never has the opposite sign of the dividend |
| JavaMath.TruncatedQuotientUnique | app/src/main/java/edu/commonwealthu/finalproject/Icon.java:52 | the truncated quotient is unique, so JavaDiv's contract fixes the position step exactly |
| JavaMath.JavaDivOfOddNegative | app/src/main/java/edu/commonwealthu/finalproject/Icon.java:52 | for odd negative velocities Java's halving is one more than Euclidean halving (so -1/2 is 0, not -1) |
| Geometry.IntersectsIffCommonPoint | app/src/main/java/edu/commonwealthu/finalproject/MainActivity.java:216-217 | for non-empty rectangles, `Rect.intersects` holds exactly when they share an integer point |
| Geometry.TouchingEdgesDoNotIntersect | app/src/main/java/edu/commonwealthu/finalproject/MainActivity.java:216-217 | rectangles meeting only along an edge do not intersect, in either order |
| Icons.New | app/src/main/java/edu/commonwealthu/finalproject/Icon.java:31-43 | a new icon starts at x = 100, y = 300 with velocity 0 |
| Icons.Update | app/src/main/java/edu/commonwealthu/finalproject/Icon.java:50-54 | velocity rises by exactly 1, x is unchanged, y ≥ 0; when y stays positive it moved by the truncated half of the new velocity; y is 0 exactly when the unclamped result was not positive |
| Icons.Jump | app/src/main/java/edu/commonwealthu/finalproject/Icon.java:60-62 | the velocity becomes -30 whatever it was; x and y are unchanged |
| Icons.CollisionShape | app/src/main/java/edu/commonwealthu/finalproject/Icon.java:90-92 | the box has its corner at the icon's position and is 75 × 75, the scaled bitmap size |
| Session.CollisionShapeIsIconView | app/src/main/java/edu/commonwealthu/finalproject/MainActivity.java:194-199 | the rectangle the loop builds from the icon's view is the icon's own collision shape exactly when the icon is at x = 100 and the view shows the icon's y |
| Icons.UpdateN | app/src/main/java/edu/commonwealthu/finalproject/Icon.java:50-54 | n updates never move x, add exactly n to the velocity, and keep y non-negative |
| Icons.JumpIdempotent | app/src/main/java/edu/commonwealthu/finalproject/Icon.java:60-62 | jumping twice equals jumping once |
| Icons.VelocityAfterJump | app/src/main/java/edu/commonwealthu/finalproject/Icon.java:50-62 | n updates after a jump the velocity is -30 + n and x has not changed |
| Icons.FirstUpdateFromSpawn | app/src/main/java/edu/commonwealthu/finalproject/Icon.java:40-53 | from the spawn point the first update gives velocity 1 and leaves y at 300 |
| Icons.JumpThenUpdateRises | app/src/main/java/edu/commonwealthu/finalproject/Icon.java:50-62 | a jump and one update move a positive y up to max(0, y - 14), strictly higher |
| Icons.FallFromRest | app/src/main/java/edu/commonwealthu/finalproject/Icon.java:50-54 | falling from rest, after n updates the velocity is n and y has grown by n*n/4 rounded down |
| Icons.ThirtyUpdatesFromSpawn | app/src/main/java/edu/commonwealthu/finalproject/Icon.java:40-54 | thirty updates from the spawn point leave the icon at y = 525 |
| Pipes.GapRange | app/src/main/java/edu/commonwealthu/finalproject/Pipe.java:68-70 | the random bound is at least 1 and at least maxGapY - minGapY, and is one of the two |
| Pipes.ResetPosition | app/src/main/java/edu/commonwealthu/finalproject/Pipe.java:66-71 | x becomes the given start and gapY becomes gap + 100 plus the draw; gap and screen size are kept; the gap lies in its allowed range |
| Pipes.New | app/src/main/java/edu/commonwealthu/finalproject/Pipe.java:35-59 | a new pipe's x equals startX, its screen height, screen width and gap equal the arguments, and its gap lies in the allowed range |
| Pipes.Update | app/src/main/java/edu/commonwealthu/finalproject/Pipe.java:76-78 | x drops by exactly 7 and nothing else changes |
| Pipes.ShapesFrameGap | app/src/main/java/edu/commonwealthu/finalproject/Pipe.java:91-102 | both halves are 75 wide and share a left edge; the top one runs from 0 down to gapY and the bottom one from gapY + gap down to the screen height, so they are exactly `gap` apart and do not intersect when gap > 0 |
| Pipes.ValidRangeClearance | app/src/main/java/edu/commonwealthu/finalproject/Pipe.java:68-70 | when the range is genuine, gapY + gap < screenHeight - 100, so the bottom half is taller than 100 |
| Pipes.DegenerateRange | app/src/main/java/edu/commonwealthu/finalproject/Pipe.java:68-70 | when screenHeight - 2*gap - 200 ≤ 1 the gap is at exactly gap + 100 |
| Pipes.UpdateKeepsGap | app/src/main/java/edu/commonwealthu/finalproject/Pipe.java:66-78 | scrolling keeps gapY and its placement and shifts the top half 7 left; only resetting moves the gap |
| Pipes.TopShape | app/src/main/java/edu/commonwealthu/finalproject/Pipe.java:90-92 | a point lies in the top half exactly when it is in the pipe's 75-wide column and above the gap (0 ≤ y < gapY) |
| Pipes.BottomShape | app/src/main/java/edu/commonwealthu/finalproject/Pipe.java:99-101 | a point lies in the bottom half exactly when it is in the pipe's column and between the end of the gap and the bottom of the screen (gapY + gap ≤ y < screenHeight) |
| Session.InitializePipes | app/src/main/java/edu/commonwealthu/finalproject/MainActivity.java:140-155 | exactly three pipes at x = W, W+400 and W+800, with gap 425, the container's size and their gaps at 525 plus the draws |
| Session.StartAsWritten | app/src/main/java/edu/commonwealthu/finalproject/MainActivity.java:104-123 | the start button as coded: a new icon; running, shown and listening; once the container has a size, exactly the pool `initializePipes` builds and a scheduled loop, otherwise the old pool; score, pass flag, displayed y and pipe views as the last game left them |
| Session.Start | app/src/main/java/edu/commonwealthu/finalproject/MainActivity.java:104-123 | the corrected start: everything as the coded start, except that the score is 0 and the pass flag is down |
| Session.Tap | app/src/main/java/edu/commonwealthu/finalproject/MainActivity.java:125-133 | while the handler is installed and the game runs, a tap sets velocity -30 and moves the displayed icon to the icon's y, changing nothing else; otherwise it changes nothing at all |
| Session.Pause | app/src/main/java/edu/commonwealthu/finalproject/MainActivity.java:334-341 | onPause lowers the running flag and changes nothing else |
| Session.Resume | app/src/main/java/edu/commonwealthu/finalproject/MainActivity.java:346-350 | onResume raises the running flag and changes nothing else |
| Session.PlayPressed | app/src/main/java/edu/commonwealthu/finalproject/MainActivity.java:468-482 | the play button raises running, reschedules the loop, reinstalls the touch handler and changes nothing else |
| Session.HandleCollision | app/src/main/java/edu/commonwealthu/finalproject/MainActivity.java:232-242 | afterwards the game is not running; if it was running, the icon is hidden, taps are ignored and the score is 0; otherwise nothing changes; icon, pool and pass flag are untouched |
| Session.CheckCollisions | app/src/main/java/edu/commonwealthu/finalproject/MainActivity.java:193-242 | the game keeps running exactly when the displayed icon misses both pipe views and touches neither the top nor the bottom of the container; a collision found here zeroes the score, hides the icon and removes the touch handler; nothing else changes |
| Session.MaxX | app/src/main/java/edu/commonwealthu/finalproject/MainActivity.java:285-288 | the result is at least the seed and every pipe's x, and is the seed or some pipe's x |
| Session.Rightmost | app/src/main/java/edu/commonwealthu/finalproject/MainActivity.java:285-288 | the rightmost x is at least -1 and at least every pipe's x, and is -1 or some pipe's x |
| Session.Track | app/src/main/java/edu/commonwealthu/finalproject/MainActivity.java:252-282 | the views take pipe 0's shapes; the score rises by one exactly when the pass was not counted and the icon is strictly inside the gap and right of the pipe; the pass flag is then "on screen and (already counted or cleared now)" |
| Session.StepPipe | app/src/main/java/edu/commonwealthu/finalproject/MainActivity.java:249-290 | one slot moves 7 left, or, once off screen, goes to the pool's rightmost x at that moment plus 400 with a fresh gap, strictly right of every other pipe; other slots are untouched; only slot 0 touches score, pass flag and views |
| Session.UpdatePipesFrom | app/src/main/java/edu/commonwealthu/finalproject/MainActivity.java:248-292 | the pool keeps its length and each pipe's geometry; each slot from i on is advanced (moved 7, or recycled with its draw to x ≥ 399); a recycled slot j lands 400 past the rightmost x of the pool as the loop finds it at j (slots before j already updated, slot j moved, later slots not yet touched); score, pass flag and views follow pipe 0's bookkeeping |
| Session.PlacedAfterPoolStep | app/src/main/java/edu/commonwealthu/finalproject/MainActivity.java:284-290 | slot i placed against the pool it saw, with the later slots placed against the pools they saw, places every slot from i on against the pool the loop showed it |
| Session.UpdatePipes | app/src/main/java/edu/commonwealthu/finalproject/MainActivity.java:248-292 | the whole pool is advanced slot by slot, each recycled slot landing 400 past the rightmost x of the pool as the loop finds it; score, pass flag and views are exactly pipe 0's bookkeeping, with pipe 0 as it stands after moving |
| Session.SyncShownY | app/src/main/java/edu/commonwealthu/finalproject/MainActivity.java:170-173 | after re-syncing, the displayed y is within one pixel of the icon's; it changes, to the icon's y, only when it was more than one pixel off |
| Session.Tick | app/src/main/java/edu/commonwealthu/finalproject/MainActivity.java:164-183 | pool size and geometry are kept; a stopped game never restarts; the loop reschedules exactly when the step ran and the game still runs; an inactive step only drops the loop; an active step updates the icon once, advances every pipe, puts each recycled pipe 400 past the rightmost x of the pool as the loop finds it, and keeps the icon shown and the touch handler installed only if the game still runs |
| Session.TickWhileStopped | app/src/main/java/edu/commonwealthu/finalproject/MainActivity.java:166-182 | a step on a game that is not running changes nothing but drops the loop |
| Session.TickCollision | app/src/main/java/edu/commonwealthu/finalproject/MainActivity.java:193-226 | an active step ends the game exactly when the displayed icon overlaps moved pipe 0's top or bottom half or touches the screen bounds; pipes 1 and 2 never take part |
| Session.TickScoring | app/src/main/java/edu/commonwealthu/finalproject/MainActivity.java:266-278 | an active step raises the score by one exactly when the uncounted pipe 0 is cleared, and zeroes it on a collision; the pass flag is lowered only with pipe 0 off screen |
| Session.PassFlagClearedOnlyByRecycle | app/src/main/java/edu/commonwealthu/finalproject/MainActivity.java:276-290 | a step that lowers the pass flag is active, finds pipe 0 off screen and recycles it to x ≥ 399 |
| Session.CeilingEndsRun | app/src/main/java/edu/commonwealthu/finalproject/MainActivity.java:222-225 | when the icon is clamped to y = 0 and the displayed icon follows it, the step ends the game and zeroes the score |
| Session.CeilingMissedByDisplayLag | app/src/main/java/edu/commonwealthu/finalproject/MainActivity.java:170-173 | because of the one-pixel tolerance, a jump from y = 15 can bring the icon to y = 0 while the displayed icon stays at 1 and the game goes on |
| Session.ClearedMeansNoPipeHit | app/src/main/java/edu/commonwealthu/finalproject/MainActivity.java:266-269 | a position that clears pipe 0 overlaps neither of its halves |
| Session.HandleCollisionOnce | app/src/main/java/edu/commonwealthu/finalproject/MainActivity.java:232-242 | handling a collision a second time changes nothing |
| Traces.StepPreservesInv | app/src/main/java/edu/commonwealthu/finalproject/MainActivity.java:104-155 | every event, the coded start included, keeps the invariant: score ≥ 0, icon x = 100 and y ≥ 0, a pool of 0 or 3 pipes, every gap 425 and placed in range |
| Traces.RunPreservesInv | app/src/main/java/edu/commonwealthu/finalproject/MainActivity.java:104-155 | every run of events keeps the invariant, and a pool of three pipes stays exactly three pipes |
| Traces.CorrectedStartPreservesInv | app/src/main/java/edu/commonwealthu/finalproject/MainActivity.java:104-155 | the corrected start keeps the invariant too |
| Traces.OverIsAbsorbing | app/src/main/java/edu/commonwealthu/finalproject/MainActivity.java:166-167 | once the icon is hidden, no run without a start shows it again or changes the pool, score or pass flag |
| Traces.CollisionZeroesScore | app/src/main/java/edu/commonwealthu/finalproject/MainActivity.java:232-242 | after a collision the score is 0 and stays 0, and the icon stays hidden, until the next start |
| Passes.TickPotential | app/src/main/java/edu/commonwealthu/finalproject/MainActivity.java:266-278 | while pipe 0 stays on screen, a step never raises "points + (pass uncounted ? 1 : 0)", keeps it exactly unless the game ends, never shows a hidden icon, keeps the score non-negative and moves pipe 0 at most 7 left |
| Passes.RunPotential | app/src/main/java/edu/commonwealthu/finalproject/MainActivity.java:125-183 | over any run without a start in which pipe 0 cannot leave the screen, taps, pauses, resumes and play presses included, the potential never rises and is kept exactly while the icon is shown; only the loop steps taken while the game is active move pipe 0, so idle steps after a pause or a collision are not limited |
| Passes.AtMostOnePointPerPass | app/src/main/java/edu/commonwealthu/finalproject/MainActivity.java:248-292 | however the player taps, pauses and resumes, the pass of pipe 0, up to and including the step that recycles it, raises the score by at most one, and not at all if the pass was already counted; a run with no loop step taken while active keeps the score; idle steps are not limited |
| Passes.ClearingRealizesPotential | app/src/main/java/edu/commonwealthu/finalproject/MainActivity.java:266-274 | a step that clears pipe 0 and survives leaves the score at the potential, so the pass is counted by then |
| Restart.RestartAsWrittenMissesFirstPipe | app/src/main/java/edu/commonwealthu/finalproject/MainActivity.java:104-123 | with the coded start after a game that ended with the pass flag up, no run of the new game raises the score while its first pipe 0 is on screen, whatever the player does, however long it pauses |
| Restart.StartScoresFirstClear | app/src/main/java/edu/commonwealthu/finalproject/MainActivity.java:104-123 | with the corrected start, after any run without a start in which the active steps have not taken pipe 0 off screen, pauses included, a step that clears pipe 0 without colliding makes the score exactly 1 |
| Restart.StartsAgreeWhenFlagDown | app/src/main/java/edu/commonwealthu/finalproject/MainActivity.java:113-115 | the two starts agree exactly when the previous game left score 0 and the flag down |
| Restart.StartThenFirstStep | app/src/main/java/edu/commonwealthu/finalproject/MainActivity.java:104-187 | on a 1000 × 1600 screen the first step after the coded start gives velocity 1 and y = 300, moves the pipes to 993, 1393 and 1793, keeps running and leaves score and pass flag as the last game left them |
| Restart.FlightFromStart | app/src/main/java/edu/commonwealthu/finalproject/MainActivity.java:104-292 | fifty-four loop steps with one touch take a new 400 × 1600 game to the step that clears pipe 0, without collision, scoring exactly when the pass was uncounted |
| Restart.RestartWitness | app/src/main/java/edu/commonwealthu/finalproject/MainActivity.java:104-123 | after a game that ended at the floor with its pass flag up, the coded start and that run clear the first pipe and leave the score unchanged, while the corrected start and the same run score 1 |
| Recycling.RightmostIs | app/src/main/java/edu/commonwealthu/finalproject/MainActivity.java:285-288 | a pipe at x ≥ -1 that is at least every other pipe is the rightmost |
| Recycling.FirstSlotRecycledAheadOfUnmoved | app/src/main/java/edu/commonwealthu/finalproject/MainActivity.java:249-290 | a recycled pipe 0 lands 400 right of pipe 2's old x, which is 407 right of where pipe 2 ends the step, because pipe 2 has not moved yet |
| Recycling.LastSlotRecycledAheadOfMoved | app/src/main/java/edu/commonwealthu/finalproject/MainActivity.java:249-290 | a recycled pipe 2 lands exactly 400 right of where pipe 1 ends the step, because pipe 1 has already moved |

## Left out

- Android views, layout passes, visibility of the pipe views, dialogs, toolbar and menus. The pipe views are always visible during a game, so the visibility test in `checkCollisions` is omitted. The lag of a view's measured height behind its layout parameters is not modelled.
- Sound (`SoundManager`, `MediaPlayer`, `SoundPool`): calls into platform libraries with no effect on the simulation.
- Bitmap decoding, scaling and flipping, `Icon.draw` and the missing-bitmap path: presentation only. The icon's size is taken as the scaled 75 × 75.
- The 17 ms `postDelayed` cadence and `Handler` scheduling. A loop step is an explicit `Tick`; `looping` records whether one is scheduled.
- Two loop runnables pending at once after a pause and resume within one frame. These are two callbacks interleaved on the main thread's one `Handler`; the model schedules at most one loop step at a time (`looping`).
- `onDestroy`, the exit dialog, the sound menu and the splash screen, and the `Background` and `SplashBackground` views: they do not touch the simulation.
- `java.util.Random`: replaced by draws passed as arguments, constrained to `[0, n)`.
- Touch events other than `ACTION_DOWN`: `Tap` stands for a press.
- Float view coordinates: every coordinate is an integer.
- 32-bit wrap-around: all arithmetic is unbounded. While a game runs, the bounds test ends it once the displayed icon touches the floor, so the icon's y and velocity stay small, and recycling keeps pipe positions small. Only a score of 2^31 would wrap.
- Session.CeilingEndsRun: weaker than "reaching the ceiling always ends the run". The code tests the displayed icon, which may stay one pixel below the icon, so the property holds only when the displayed y follows the icon to 0. `Session.CeilingMissedByDisplayLag` shows a run that touches y = 0 and goes on.

## Findings

| source | as written | input that shows it | evidently intended | confidence | as-written member | corrected member |
|---|---|---|---|---|---|---|
| app/src/main/java/edu/commonwealthu/finalproject/MainActivity.java:104-123 | starting a new game does not reset `hasPassed` | a game on a 400 × 1600 screen that hits the floor after pipe 0 was counted but before pipe 0 left the screen, then "new game" with every gap at 525, 42 loop steps, one tap and 12 loop steps: the icon clears the new game's first pipe and the score stays 0 (`Restart.RestartWitness`; for every run, `Restart.RestartAsWrittenMissesFirstPipe`) | a new game re-arms scoring, so the same run scores 1 (`Restart.RestartWitness`; for every run, `Restart.StartScoresFirstClear`) | medium, not executed | Session.StartAsWritten | Session.Start |
