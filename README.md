# Brick Breaker: a Dafny model of the game logic

Brick Breaker (`brickbreaker.cpp`) is an OpenGL/GLFW arcade game on an
80 × 80 unit field. Coloured bricks (red, green, black) fall from the top of
the field. The player moves two baskets (green and red) along the bottom to
catch bricks of the matching colour. A cannon on the left fires a laser that
bounces off three fixed mirrors. A brick hit by the laser is replaced, and a
missed brick is respawned. Black bricks must be avoided: catching one ends the
game, and shooting one costs points and lasers. After 500 lasers' worth of
hits the game is over.

This project models the game state and the per-frame logic that changes it.
The rendering is not modelled.

- `entities.dfy` (module `Entities`): the C structs as values, and the brick,
  basket, cannon and laser-leg constructors. The `rand()` draws become `Roll`
  values and the C trigonometric functions become a `Trig` value.
- `scoring.dfy` (module `Scoring`): the scoring rules as functions over a
  `Tally`. This covers basket catches (`score`), laser hits (the scoring half
  of `shoot`) and the end-of-game verdict of `main`.
- `bounce.dfy` (module `Bounce`): the firing loop of `draw`. It models the
  mirror mask, the bounce count, the exit flag and the legs of the laser, and
  the loop as the source writes it (which does not always end).
- `controls.dfy` (module `Controls`): the key and mouse-button state tables
  kept by the GLFW callbacks, and the cursor-to-world mapping.
- `camera.dfy` (module `Camera`): the zoom and pan of the view window.
- `game.dfy` (module `Game`): the global state as a class `Board`, with one
  method per source function that changes it. `Board.Frame` is one turn of
  the `main` loop.

Coordinates, speeds, zoom, pan and times are `real`. The trigonometric
functions, the cursor position, the `atan` aim angle, the clock readings and
the `rand()` results are all inputs.

Three behaviours of the code are easy to misread:

- The firing loop has no exit once all three mirrors are consumed (first
  finding below). Here the model is in two halves. `Bounce.PassAsWritten` and
  `Bounce.AllMirrorsHitNeverExits` give the loop as written, which never
  ends in that case. `Bounce.Trace` gives the corrected loop, with the exit,
  and that is the loop `Game.Board.Fire` uses, so the board's firing always
  ends.
- The brick selection takes the leftmost struck edge left of the leg's far end.
  It never compares a brick with the leg's start point, so a brick behind the
  firing point can be chosen (`Game.BehindStartIsChosen`).
- A missed brick respawns at the grown spawn offset. The offset goes back to 0
  only when the miss counter reaches 15 (`Game.Board.RespawnAt`,
  `Game.CountersReset`).

In the second and third cases the model follows the code as written.

## Model

| member | source | states |
|---|---|---|
| Entities.NewBrick | brickbreaker.cpp:435-462 | the brick built from the three draws sits at height 42 + offset; for a non-negative offset it has colour draw % 3, x1 = draw % 50 - 20 in [-20, 29], width 1.5, height 2.5, translation 0, alive |
| Entities.Fallen | brickbreaker.cpp:1032-1034 | falling by `speed` lowers y1 by speed and keeps the brick's height, its spawn height (y1 - translation), x, colour and alive flag, so a well-formed brick stays well-formed |
| Entities.Shifted | brickbreaker.cpp:667-669 | moving a basket sideways keeps its width and its x1 - translate, moves x1 by d and keeps its colour |
| Entities.Raised | brickbreaker.cpp:695-699 | moving a cannon body by d changes y by d, keeps y - translate and leaves x and aim alone |
| Entities.Leg | brickbreaker.cpp:489-507 | a laser leg starts at (x1, y1) with angle m and intercept c; it ends at the given end point, or 100 units along the angle when there is none |
| Entities.LegAsWritten | brickbreaker.cpp:496-500 | `createLaser` as written, with (0, 0) read as "no end point"; its agreement with `Leg` away from the origin, and its failure at the origin, are the two lemmas below |
| Entities.LegAsWrittenAgrees | brickbreaker.cpp:496-500 | the (0, 0) sentinel form and the option form build the same leg for every end point other than the origin, and for "no end point" |
| Entities.OriginStrikeIsNotClipped | brickbreaker.cpp:496-500 | a strike exactly at (0, 0) is not clipped by the sentinel form: the unrotated cannon's first leg runs on to x = 69 rather than stopping at 0 |
| Scoring.CatchOf | brickbreaker.cpp:731-750 | exactly one outcome per brick/basket pair: no catch iff the brick is not inside the basket at the catch line; otherwise a match iff the colours agree, else a black catch iff the brick is black, else a wrong basket |
| Scoring.ApplyCatch | brickbreaker.cpp:733-750 | a match adds 10, a wrong basket subtracts 5, a black catch adds nothing and ends the game, and the hit count is untouched |
| Scoring.ScoreBrick | brickbreaker.cpp:729-752 | one brick against the baskets never changes the hit count |
| Scoring.ScoreAll | brickbreaker.cpp:727-753 | one call of `score` never changes the hit count |
| Scoring.ScoreBrickGameover | brickbreaker.cpp:739-744 | after one brick the game is over iff it was already, or some basket catches that black brick |
| Scoring.ScoreAllGameover | brickbreaker.cpp:725-754 | after `score` the game is over iff it was already, or some black brick sits in some basket |
| Scoring.ScoreBrickShift | brickbreaker.cpp:729-752 | the points one brick adds do not depend on the starting tally |
| Scoring.ScoreAllShift | brickbreaker.cpp:725-754 | the points `score` adds do not depend on the starting tally |
| Scoring.ScoreRepeats | brickbreaker.cpp:725-754 | a brick that stays in a basket scores again: two calls on unchanged bricks and baskets add twice the points of one |
| Scoring.ScoreBrickOutside | brickbreaker.cpp:731 | a brick in no basket leaves the tally unchanged |
| Scoring.ScoreAllNoCatch | brickbreaker.cpp:725-754 | with no brick in any basket, `score` changes nothing |
| Scoring.AlertOf | brickbreaker.cpp:803-825 | the "out of lasers" message iff the hit count is at least 500; the "use your lasers wisely" warning iff it is in [400, 500) |
| Scoring.ApplyHit | brickbreaker.cpp:797-826 | a coloured hit adds 1 laser and 10 points; a black hit adds 5 lasers and takes 5 points; afterwards the game is over iff it was, or the hit count is at least 500 |
| Scoring.HitsEndGameAt500 | brickbreaker.cpp:797-826 | from a running game, any run of hits raises the hit count by exactly the lasers used, and ends the game iff the count reaches 500 |
| Scoring.HitsKeepGameover | brickbreaker.cpp:807-822 | once over, the game stays over through further hits, and the hit count still adds up |
| Scoring.TierOf | brickbreaker.cpp:1315-1328 | the worst verdict iff the score is at most 0, and the best iff it is above 500 |
| Scoring.InBasket | brickbreaker.cpp:731 | the catch test: the brick's left edge is at or right of the basket's left edge, its right edge at or left of the basket's right edge, and its top (y2) at or below the catch line y = -36, so the whole brick has reached it |
| Scoring.TierBands | brickbreaker.cpp:1315-1328 | the verdict is rank 0 for at most 0 points, 6 above 500, and otherwise the number of started hundreds |
| Scoring.TierMonotone | brickbreaker.cpp:1315-1328 | a higher final score never gets a worse verdict |
| Bounce.Start | brickbreaker.cpp:1097-1102 | the loop starts with no mirror consumed, no bounce, the flag down, no legs, at the second cannon body's aim |
| Bounce.Meet | brickbreaker.cpp:1114 | the computed x lies on both lines |
| Bounce.MeetUnique | brickbreaker.cpp:1114 | two non-parallel lines meet at that x and no other |
| Bounce.Crossing | brickbreaker.cpp:1110-1117 | a reported crossing lies strictly inside the mirror's x span and on the current leg's line |
| Bounce.CrossingOnMirror | brickbreaker.cpp:1110-1117 | a reported crossing also lies on the mirror's line |
| Bounce.CrossingComplete | brickbreaker.cpp:1110-1117 | the converse: when the leg's line and the mirror's line are not parallel and meet at an x strictly inside the mirror's span, exactly that point is reported |
| Bounce.Step | brickbreaker.cpp:1108-1133 | one mirror test keeps the three-entry mask; what it does to the loop state is stated by `StepChained` |
| Bounce.StepChained | brickbreaker.cpp:1108-1133 | one mirror test keeps the loop invariant: each mirror consumed at most once, count = consumed mirrors ≤ 3, legs in consecutive slots, each bounded leg ending exactly at the point `Crossing` reports on the mirror it struck (strictly inside its span) and continuing, reflected, as the next leg. The count grows by at most one; a raised flag means no bounce in that test; before any bounce, a strike happens iff the line crosses that mirror |
| Bounce.Finish | brickbreaker.cpp:1135-1139 | the final leg is appended after the existing ones, unbounded, from the current point at the current angle; the flag is raised and the mask, count and strikes are kept |
| Bounce.NextFree | brickbreaker.cpp:1106-1108 | the mirror the `for` loop tests next after the last strike: an unconsumed one, with every mirror tested on the way to it already consumed; 3 when all are consumed |
| Bounce.OrderStep | brickbreaker.cpp:1106-1133 | one mirror test keeps the order of the strikes: the first is the lowest-numbered mirror the firing line crosses, each later one is the next unconsumed mirror, and a final leg misses the next unconsumed mirror |
| Bounce.FinishOrdered | brickbreaker.cpp:1135-1139 | the final leg written with no bounce, or with every mirror consumed, keeps that order |
| Bounce.FiredAt | brickbreaker.cpp:1110-1126 | for a bounded leg j of a firing: the mirror it struck, its exact end point on it, the reflected start of leg j + 1, and why that mirror was the one struck (lowest crossed for the first strike, the next unconsumed one after it) |
| Bounce.FinishChained | brickbreaker.cpp:1135-1139 | writing the final unbounded leg keeps the loop invariant |
| Bounce.Sweep | brickbreaker.cpp:1106-1134 | the inner `for` pass keeps the invariant; it bounces at least once, or raises the flag after a bounce, or finds every mirror consumed, or (before any bounce) finds that the firing line crosses no mirror |
| Bounce.Trace | brickbreaker.cpp:1096-1140 | the firing loop with the missing exit ends, and produces `Fired`: 1 to 4 legs for slots 0.., each mirror consumed at most once, the first leg at the firing point and angle, every leg but the last ending exactly at the point `Crossing` reports on the mirror it struck and continuing from there at the reflected angle, the last leg unbounded. The first mirror struck is the lowest-numbered one the firing line crosses. Each later one is the next unconsumed mirror after the previous strike, in the loop's order (on through mirror 2, then from mirror 0). A final leg after a bounce misses the next unconsumed mirror, if one is left. There is exactly one leg iff no mirror is crossed from the firing point |
| Bounce.PassAsWritten | brickbreaker.cpp:1104-1139 | one turn of the `while` loop as written: once every mirror is consumed after a bounce, with the flag down, a turn leaves the state exactly as it was |
| Bounce.AllMirrorsHitNeverExits | brickbreaker.cpp:1104-1139 | in the loop as written, once all three mirrors are consumed with the flag down, no number of further turns changes the state: the loop never ends |
| Controls.Input.constructor | brickbreaker.cpp:1260-1264 | at start-up no key and no mouse button is pressed or released |
| Controls.Input.KeyboardAsWritten | brickbreaker.cpp:269-282 | for codes inside the table, a press sets pressed and clears released, a release does the opposite, and a repeat changes nothing; consistency is kept |
| Controls.Input.Keyboard | brickbreaker.cpp:269-282 | for every code GLFW may deliver: a press makes the key held, a release marks it released, no other key changes, out-of-range codes change nothing, consistency is kept |
| Controls.Input.MouseButton | brickbreaker.cpp:298-310 | a press sets pressed and clears released; every other action, repeat included, counts as a release |
| Controls.Input.HeldIsPressed | brickbreaker.cpp:665 | with consistent tables, a key is held iff it is flagged pressed |
| Controls.WorldX | brickbreaker.cpp:896 | a window column lies in [0, 600] iff its world x lies in [-40, 40] |
| Controls.WorldY | brickbreaker.cpp:897 | a window row lies in [0, 600] iff its world y lies in [-40, 40] |
| Controls.WorldRoundTrip | brickbreaker.cpp:896-897 | the cursor mapping and its inverse undo each other both ways |
| Controls.WorldMonotone | brickbreaker.cpp:921-922 | moving the cursor right moves the point right, and moving it down moves the point down |
| Camera.View.constructor | brickbreaker.cpp:251-252 | the view starts unzoomed and centred, inside the field |
| Camera.View.ZoomIn | brickbreaker.cpp:852-857 | zoom grows by 0.1, capped at 2; pan unchanged; the window stays inside the field |
| Camera.View.ZoomOut | brickbreaker.cpp:858-867 | zoom shrinks by 0.1, floored at 1; pan is clamped so that the wider window fits the field |
| Camera.View.Recentre | brickbreaker.cpp:868-869 | at zoom 1 the pan becomes 0; nothing else changes |
| Camera.View.Zoom | brickbreaker.cpp:850-870 | `zoom` keeps 1 ≤ zoom ≤ 2 and the window inside [-40, 40], forces pan 0 at zoom 1, and does nothing with neither arrow held |
| Camera.View.Scroll | brickbreaker.cpp:955-975 | `scroll_callback` keeps the same bounds, zooms in on +1, out on -1, and only recentres on other offsets |
| Camera.View.Pan | brickbreaker.cpp:872-886 | `pan`: the right arrow moves the window right by 1 and the left arrow left by 1, each move clamped to the field; with both held it moves right and then left; with neither, or at zoom 1, it does not move; zoom unchanged |
| Camera.View.PanRight | brickbreaker.cpp:874-879 | the window moves right by 1, clamped so that it stays inside the field; zoom unchanged |
| Camera.View.PanLeft | brickbreaker.cpp:880-885 | the window moves left by 1, clamped so that it stays inside the field; zoom unchanged |
| Camera.View.Keys | brickbreaker.cpp:1300-1301 | `zoom` then `pan` keep the window inside the field and centred whenever unzoomed |
| Camera.View.UnzoomedIsCentred | brickbreaker.cpp:868-869 | at zoom 1 the window bounds already force pan 0 |
| Camera.View.WindowInsideField | brickbreaker.cpp:997 | the projection window lies inside [-40, 40] and is at least 40 units wide |
| Camera.Clamp | brickbreaker.cpp:863-866 | the two pan corrections put a value into [lo, hi], and leave it alone when it is already there |
| Game.MirrorLayout | brickbreaker.cpp:554-597 | three mirrors, each with x1 < x2 and its first end point on its line |
| Game.Strikes | brickbreaker.cpp:768-790 | the edge test of `shoot`: the leg's height at the brick's edge lies between the brick's bottom and top, the brick's bottom is below the top of the field y = 40 and its top above the catch line y = -36 |
| Game.Nearest | brickbreaker.cpp:764-793 | the selected end point never lies right of the leg's far end |
| Game.NearestMinimal | brickbreaker.cpp:768-793 | no struck edge of any brick lies strictly left of the selected end point |
| Game.NearestStrict | brickbreaker.cpp:766-793 | with no brick selected at the start, either none is selected and the end point stays the far end, or the end point moves strictly left to a brick of the array |
| Game.NearestChosen | brickbreaker.cpp:768-795 | a brick is selected iff some struck edge lies strictly left of the far end; the end point is then an edge of the selected brick, on the leg's line |
| Game.NearestEarliest | brickbreaker.cpp:774-790 | ties go to the earliest brick: no earlier brick has a struck edge at or left of the end point |
| Game.BehindStartIsChosen | brickbreaker.cpp:768-793 | the selection never compares with the leg's start: a brick behind the start point is chosen |
| Game.Missed | brickbreaker.cpp:1286 | the respawn test: the brick is alive and its top (y2) is below the catch line y = -36, so the whole brick has passed it |
| Game.Misses | brickbreaker.cpp:1286 | at most one miss per brick |
| Game.BasketNudge | brickbreaker.cpp:663-689 | a basket moves iff Control or Alt is down together with an arrow; Control picks basket 1 and Alt basket 0; right moves +0.5 and left -0.5, right winning over left |
| Game.Drift | brickbreaker.cpp:440 | the offset a run of draws adds: at most 19 per draw |
| Game.DriftMonotone | brickbreaker.cpp:1226-1227 | the start-up loop never lowers the offset: a later brick is spawned at least as high as an earlier one |
| Game.SpawnedStep | brickbreaker.cpp:1226-1227 | one `createRectangle` call of the start-up loop extends its invariant: brick i is built from its draws at the new offset, which is the starting offset plus the draws of bricks 0..i |
| Game.Board.constructor | brickbreaker.cpp:1223-1230 | start-up: zero score, running game, speed 0.1, counter 0, the mirror layout; brick k is built from its draws at offset `Drift` of draws 0..k, and the final offset is `Drift` of all fifteen; no laser slot is in use; all invariants hold |
| Game.Board.SpawnAll | brickbreaker.cpp:1226-1227 | brick k is built from its own draws at the old offset plus the draws of bricks 0..k; the offset grows by the draws of all fifteen; all invariants hold |
| Game.Board.CreateRectangle | brickbreaker.cpp:435-462 | the spawn offset grows by the second draw % 20 and never decreases; only brick i changes, to the brick built from the draws at that offset |
| Game.Board.ScoreCatches | brickbreaker.cpp:725-754 | the nested loops compute the tally `ScoreAll` gives, and leave bricks and baskets unchanged |
| Game.Board.SelectTarget | brickbreaker.cpp:761-793 | the selection loop computes `Nearest` on the current bricks, starting from the slot's far end |
| Game.Board.Shoot | brickbreaker.cpp:756-832 | with no struck edge nothing changes. Otherwise the hit is scored by `ApplyHit`, the slot is cut at the struck edge, later slots are emptied, and only the struck brick is replaced |
| Game.Board.ScoreHit | brickbreaker.cpp:797-826 | the tally becomes `ApplyHit` of the old one; the warning matches the new hit count |
| Game.Board.ClearAfter | brickbreaker.cpp:828-829 | the slots after i are emptied and the others are kept |
| Game.Board.Fall | brickbreaker.cpp:1023-1034 | every brick falls by `speed` |
| Game.Counters | brickbreaker.cpp:1284-1297 | from a counter in [0, 15) and a non-negative offset, the respawn loop keeps the counter in [0, 15) and the offset non-negative |
| Game.CountersCount | brickbreaker.cpp:1286-1295 | the counter always equals the starting count plus the misses so far, modulo 15 |
| Game.CountersReset | brickbreaker.cpp:1291-1295 | whenever a miss brings the count to a multiple of 15, the counter and the spawn offset are both 0 |
| Game.CountersNoWrap | brickbreaker.cpp:1286-1290 | before the counter first reaches 15, it is the starting count plus the misses, and the offset is the starting offset plus the draws of the missed bricks |
| Game.CountersAfterWrap | brickbreaker.cpp:1284-1297 | after the miss that brings the counter to 15, counter and offset restart from 0 and count only the misses after it and their draws |
| Game.WrapPoint | brickbreaker.cpp:1288-1291 | when the misses bring the count to 15 or more, some single miss brings it to exactly 15 |
| Game.RespawnedStep | brickbreaker.cpp:1284-1297 | one turn of the respawn loop carries its invariant from brick i to brick i + 1: each missed brick seen so far is replaced by its `Respawned` brick (built from its draws at the offset the counters held before it, grown by its own draw), every other brick is unchanged, counter and offset are the `Counters` of the bricks seen, and no brick seen is below the catch line |
| Game.Board.Respawn | brickbreaker.cpp:1284-1297 | each missed brick k becomes its `Respawned` brick and every other brick is unchanged; the counter and offset end at the `Counters` of the whole pass, which go back to 0 when the counter reaches 15 (`CountersReset`); no brick is left below the catch line; all invariants hold |
| Game.Board.RespawnAt | brickbreaker.cpp:1286-1296 | a missed brick i is counted and replaced by the brick built from its draws at the grown offset, and when the counter then reaches 15 counter and offset both go back to 0; any other brick i leaves bricks, counter and offset unchanged; brick i is not below the catch line afterwards |
| Game.Board.TranslateBaskets | brickbreaker.cpp:663-689 | at most one basket moves, the one `BasketNudge` picks, by its offset |
| Game.Board.TranslateCannon | brickbreaker.cpp:691-709 | S raises both bodies by 0.5, otherwise F lowers them by 0.5, otherwise nothing |
| Game.Board.RotateCannon | brickbreaker.cpp:711-723 | A turns both bodies by +0.01, otherwise D by -0.01, and nothing else changes |
| Game.Board.BlockSpeed | brickbreaker.cpp:834-848 | N raises the speed by 0.1 capped at 0.5, then M lowers it by 0.1 floored at 0.1; the speed stays in [0.1, 0.5] |
| Game.Board.Grab | brickbreaker.cpp:893-917 | (`GrabbedAt`) a basket is held iff one is under the cursor, the first such, and the grab point snaps to its centre, else it is the cursor; the cannon is held iff it is under the grab point, and then the grab height is the cannon's; a shot is aimed iff neither is held |
| Game.OnBasket | brickbreaker.cpp:901 | a basket is under the cursor iff the cursor's x is within its span and its y is in the strip [-40, -36] |
| Game.OnCannon | brickbreaker.cpp:909 | the cannon is under the cursor iff x is in [-40, -39 + 8 cos(rotation)] and y is within 5 units of the cannon's height |
| Game.Board.PickBasket | brickbreaker.cpp:899-907 | the first basket under the grab point is held and the grab point moves to its centre; with none under it nothing is held and the point stays |
| Game.Board.Drop | brickbreaker.cpp:918-952 | (`Released`) a held cannon moves to the cursor height, an aimed shot turns the cannon to the aim, a held basket is centred on a cursor in the basket strip, everything else is unchanged; the drag state is cleared except a cannon held with a basket |
| Game.Board.MouseMovement | brickbreaker.cpp:891-953 | a left press on an idle state grabs exactly as `Grab` states (`GrabbedAt`) and moves neither cannon nor basket; otherwise a left release drops exactly as `Drop` states (`Released`, against the stored grab point); otherwise nothing changes |
| Game.Board.Fire | brickbreaker.cpp:1093-1140 | the legs `Trace` produces go to slots 0.. of the laser array and are marked in use; later slots are kept |
| Game.Board.Load | brickbreaker.cpp:1120-1137 | the `createLaser` calls: leg k goes to slot k and the slot is marked in use, later slots are kept |
| Game.Board.Gate | brickbreaker.cpp:1090-1143 | once a time unit has passed the gate resets the clock and, with space held, fires the legs `Trace` produces; otherwise the slots are kept |
| Game.Struck | brickbreaker.cpp:766-793 | the brick one `shoot(i)` strikes is an index into the brick array, or -1 for none |
| Game.CutLeg | brickbreaker.cpp:827 | a leg cut at the struck edge keeps its start point, angle and intercept |
| Game.FirstHit | brickbreaker.cpp:1146-1157 | the first filled slot, before the first empty one, whose leg strikes a brick, with the brick it strikes; every filled slot before it strikes nothing; with no such slot, no slot before the first empty one strikes anything |
| Game.WindowRescores | brickbreaker.cpp:1146-1157 | across frames a window can score more than once: a leg cut at one brick strikes another brick in the next frame once the bricks have fallen |
| Game.Board.LaserWindow | brickbreaker.cpp:1145-1163 | for one call (one frame): at 0.2 or more after the gate every slot is emptied and nothing else changes; inside the window the new state is `SlotsShot` of the old one (`ShootSlots`); a game once over stays over and the hit count never falls |
| Game.Board.ShootSlots | brickbreaker.cpp:1146-1157 | for one call (one frame), `SlotsShot`: for the `FirstHit` slot, the tally becomes `ApplyHit` of the struck brick's colour, the offset grows by that slot's draw, exactly that brick becomes `NewBrick` at the new offset, that leg is cut at the struck edge (`CutLeg`) and the later slots are emptied; with no hit nothing changes |
| Game.Board.ShootSlot | brickbreaker.cpp:1150-1153 | one `shoot(i)` strikes the brick `Struck` gives; with none nothing changes; otherwise the tally becomes `ApplyHit` of its colour, the offset grows by the draw, exactly that brick becomes `NewBrick` at the new offset, slot i is cut at the struck edge and the later slots are emptied |
| Game.Board.ClearSlots | brickbreaker.cpp:1159-1163 | after the window every slot is emptied |
| Game.Board.Draw | brickbreaker.cpp:1023-1163 | the firing gate resets iff one time unit has passed; the game once over stays over; the hit count never falls |
| Game.Board.Steer | brickbreaker.cpp:1278-1282 | the input half of a frame keeps the invariants and the hit count; the tally becomes `ScoreAll` of the bricks against the baskets where the mouse and keys left them; a game once over stays over |
| Game.Board.Upkeep | brickbreaker.cpp:1284-1301 | after the respawn loop, `block_speed`, `zoom` and `pan`: no brick is below the catch line, the speed has taken the N and M steps, an unzoomed view is centred, and the board and view invariants hold |
| Game.Board.Frame | brickbreaker.cpp:1276-1304 | one turn of the main loop keeps every invariant (speed, zoom and pan bounds, well-formed bricks, aligned cannon bodies, drag state); the game once over stays over; the hit count never falls |

## Left out

- Rendering, shader loading, VAO creation, the `glm` matrix work, window
  creation and resizing: these are graphics library calls.
- Console output: catches, hits and the final verdict are modelled as values
  (`Catch`, `Alert`, `Tier`). The text of the messages is not modelled.
- `keyboardChar` and `quit`: they only close the window.
- Trigonometry, `sqrt` and pi are inputs (`Trig`, `pi`, `root3`). This covers
  the laser's 100-unit extension and the cannon hit test. The thickness
  offsets in `createLaser` only feed the drawing and are not modelled.
- Floating point: all arithmetic is on reals. IEEE rounding is not modelled:
  the drift of repeated ±0.1 steps, and `zoomFactor == 1` failing after such
  steps. Nor is the infinity/NaN that a parallel leg and mirror produce.
  `Crossing` treats that case as a miss, which is what the strict span test
  does with those values.
- `glfwGetTime`, `glfwGetCursorPos`, `rand()` and `srand`: these become
  parameters (`now`, `later`, cursor pixels, `Roll` draws). The draws are
  indexed by the brick or slot that consumes them.
- `Game.Board.Drop`: the aim is an input (`aim`) standing for
  `atan((mouseY - gun.y) / (mouseX - gun.x))`, so the model does not state how
  the angle depends on the cursor.
- `Game.Board.Draw`, `Game.Board.Frame`: their contracts state the preserved
  invariants and the monotone facts. Each step's exact effect is stated by the
  members they call.
- `Game.Board.Upkeep`: it does not restate the exact new bricks, counter,
  offset and view. The bricks, counter and offset are stated by `Respawn`. The
  view is stated by `Pan` and by `ZoomIn`, `ZoomOut` and `Recentre`, the three
  steps of `Zoom`.
- `Game.Board.Steer`: besides the invariants and the tally, it states no
  exact new drag state, baskets or cannon. Those are stated by `MouseMovement`,
  `TranslateBaskets`, `TranslateCannon` and `RotateCannon`.
- `Camera.View.Keys`: it states only the bounds and the centring at zoom 1.
  The exact steps are stated by `Zoom`'s callees `ZoomIn`, `ZoomOut` and
  `Recentre`, and by `Pan`.
- `Camera.View.Zoom`, `Camera.View.Scroll`: they state the direction of the
  zoom change, not the new value. The exact step is stated by `ZoomIn` and
  `ZoomOut`.
- The `translate` field of a basket or of the cannon drifts from its position
  when the keyboard moves the object during a mouse drag. This is because the
  drop adds the cursor offset against the grab point. The model follows the
  code and claims nothing about that drift.
- Drawing the laser legs (`draw3DObject(laser[i])`) is not modelled; only the
  slots' contents are.

## Findings

| source | as written | input that shows it | evidently intended | confidence | as-written member | corrected member |
|---|---|---|---|---|---|---|
| brickbreaker.cpp:1104-1139 | the firing loop exits only on a miss after a bounce, or on a pass with no bounce; once all three mirrors are consumed neither branch runs again and the `while` loop spins forever | cannon raised to y = 17 and turned to rotate = -0.44; the beam strikes mirror 0, then mirror 1, then mirror 2 | when every mirror is consumed, write the final unbounded leg and stop | not executed | Bounce.PassAsWritten, Bounce.AllMirrorsHitNeverExits | Bounce.Trace |
| brickbreaker.cpp:496-500, 827 | `createLaser` reads an end point of exactly (0, 0) as "no end point", so `shoot` cannot cut a laser at a brick edge struck at the origin | unrotated cannon at height 0; a red brick with x1 = 0 spanning y = 0; the leg from (-31, 0) is cut at (0, 0) and instead runs on to x = 69 | cut the leg at the struck edge; the same test also applies to the bounce legs of line 1120, which `Bounce.Step` builds with the corrected form, but in the layout of `createMirrors` no mirror's line passes through the origin inside the mirror's span, so the bounce legs are not affected | not executed | Entities.LegAsWritten, Entities.OriginStrikeIsNotClipped | Entities.Leg (used by Game.Board.Shoot and Bounce.Step) |
| brickbreaker.cpp:269-282 | `keyboard` indexes the 350-entry tables with the key code unchecked, and GLFW reports unidentified keys as -1 | a key GLFW cannot identify: key = -1 with action Press writes before the start of both tables | ignore key codes outside the tables | not executed | Controls.Input.KeyboardAsWritten | Controls.Input.Keyboard |
