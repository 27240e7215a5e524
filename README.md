# Retro Boy platformer core in Dafny

A model of the deterministic, fixed-time-step 2D platformer physics of
retro-boy-game, with proofs about it. It covers four parts:

- **Tile grid.** `Map` holds a grid of cells, with 1 a wall and 0 empty. It is
  built from a text level, where `#` is a wall and `*` the spawn. Its collision
  query `checkCollision` returns the 32x32 rectangle of every wall cell in the
  clamped tile range of a box.
- **Player.** The player's state machine runs once per tick, in this order:
  - acceleration or friction, then the speed cap;
  - the ±2px wall probes;
  - the wall slide;
  - the edge-triggered jump or wall jump;
  - gravity chosen by priority;
  - the collision pass along X, then along Y, with the 6px corner nudge.
- **Boy.** The older entity, with instant steering, a level-triggered jump and
  constant gravity.
- **Hosts.** The two hosts that drive the entities:
  - `main.cpp`: the fixed-step loop, the respawn 200px below the map, the R
    key and the clamped camera;
  - `Game.cpp`: the same loop with a strict comparison, the fall and finish
    respawns, the rubber-band camera, the debug toggles, window-mode cycling
    and the gated level load.

## How the model is built

A source class whose methods update fields becomes a Dafny `class`. Beside it
sits a module of pure stage functions, and each method's `ensures` ties the new
state to them:

- `Player` pairs with `PlayerPhysics`;
- `Boy` pairs with `BoyPhysics`;
- `Map` pairs with `TileQuery` and `LevelText`;
- `Game` pairs with `GameRules`;
- the main loop pairs with the `MainHost` functions.

The loops of the source become `for`/`while` loops whose invariants relate the
state to back-recursive folds of those functions:

- the tile scan;
- the per-line parse;
- the wall passes;
- the event queue;
- the accumulator.

`Map.CheckCollision` is proved equal to the scan function `Collisions`. The
entities and hosts state their results against `Map.query`, a ghost function
value. `Map.Valid()` says this value answers every box exactly as
`Collisions(grid, box)` does. Lemmas about tiles take such a query together
with its grid, under `Answers(q, g)`.

Some modelling choices:

- Coordinates and velocities are `real`.
- `static_cast<int>` becomes `Geometry.Trunc`, which truncates toward zero.
- `sf::Time` keeps whole microseconds, so a frame is 16666 µs and each tick is
  fed 16666/1000000 s.
- Key polling becomes an `Input` record per update. A frame's ticks take a sequence of these, one per tick, and a tick past its end holds no key.
- `wasJumpPressed` has no initialiser in Player.hpp:50, and the constructor never sets it. Its first value is a parameter of the constructors.
- The window's event queue becomes a sequence of `Event`s.
- An opened level file becomes a `LevelFile`: its lines, plus the finish
  rectangles of its object layer.

Where the code departs from the behaviour its documentation describes, the
model follows the code:

- **Tile index.** Computed by truncation, not by the floor. A box up to one
  tile left of the grid still scans column 0 (`TruncationReachesColumnZero`).
  The right and bottom edges are inclusive, so a wall that only touches them is
  reported.
- **Empty grid.** The query reads row 0 without a guard, so it needs a grid
  with a row; it does not return an empty answer.
- **Spawn position.** The last `*` in the file wins, not the first. It sets the
  start to its cell's top-left corner, with the row counting only non-empty
  lines. `Player::reset` then centres the hitbox on that corner. `Boy::reset`
  puts the shape exactly there.
- **Reset.** `Player::reset` clears only the position, the velocity and
  `isGrounded`. The slide flag, the wall direction, the jump memory and the
  facing stay as they were.
- **Level file.** `Map.cpp` declares `loadFromFile` as `void` and `Map.hpp` as
  `bool`. The model returns whether the file could be opened, which
  `Game::loadLevel` relies on.

## Model

| member | source | states |
|---|---|---|
| Geometry.Trunc | src/World/Map.cpp:60-65 | the cast truncates toward zero: for r ≥ 0 its result n has n ≤ r < n+1, for r < 0 n-1 < r ≤ n |
| TileQuery.ScanRange | src/World/Map.cpp:60-75 | the clamped range starts at column and row 0 or later and ends within row 0's width and the grid's height; a grid without rows is excluded, as the unguarded grid[0] demands |
| TileQuery.Collisions | src/World/Map.cpp:55-89 | the answer of checkCollision: the tile rectangles of the scan of the clamped range; CheckCollision is proved equal to it, and QueryReportsRangeWalls, QueryMatchesGeometry and CollisionsAreWallTiles state what it contains |
| TileQuery.RowHitsMember | src/World/Map.cpp:78-84 | a cell is in a row's scan exactly when it is on that row, in the scanned columns and a wall |
| TileQuery.RowHitsOrdered | src/World/Map.cpp:78 | a row's scan lists its cells left to right |
| TileQuery.SpanHitsMember | src/World/Map.cpp:77-85 | a cell is in the scan of a row range exactly when it lies in the range's rows and columns and is a wall |
| TileQuery.SpanHitsOrdered | src/World/Map.cpp:77-78 | the scan of a row range is in row-major order |
| TileQuery.QueryReportsRangeWalls | src/World/Map.cpp:67-86 | a cell is reported iff it lies in the clamped range and holds 1 in its own (possibly short) row; the report is row-major |
| TileQuery.RowMajorDistinct | src/World/Map.cpp:77-78 | row-major order reports each cell at most once |
| TileQuery.CollisionsAreWallTiles | src/World/Map.cpp:80-83 | every returned rectangle is (x·32, y·32, 32, 32) for a wall cell (x, y) |
| TileQuery.QueryMatchesGeometry | src/World/Map.cpp:60-79 | for a box whose right and bottom edges are not negative, a cell is reported iff it is a wall within row 0's width whose tile meets the box, touching at the right or bottom edge included |
| TileQuery.TouchingRightEdgeIsReported | src/World/Map.cpp:62-78 | a wall tile whose left edge lies on the box's right edge is returned |
| TileQuery.EmptyRegionHasNoCollisions | src/World/Map.cpp:77-88 | a box that meets no wall tile gets an empty result |
| TileQuery.TruncationReachesColumnZero | src/World/Map.cpp:60-69 | the box (-40, 0, 30, 10) reports the wall at cell (0, 0) although its tile does not meet the box |
| TileQuery.QueryOfAnswers | src/World/Map.cpp:55-89 | the query value built from a grid answers every box as that grid's scan does |
| LevelText.ParseRow | src/World/Map.cpp:24-35 | a line's row is as long as the line, with 1 exactly at the '#' characters and 0 at every other, '*' included |
| LevelText.LineStart | src/World/Map.cpp:25-35 | the start position after the first n characters of a line: each '*' on row y overwrites it; LineStartIsLastStar and LineWithoutStarKeepsStart state its value |
| LevelText.ParseLines | src/World/Map.cpp:22-41 | the grid and start after the first n lines, a row pushed per non-empty line; ParseLinesRows and StartIsLastStar state its result |
| LevelText.LineStartIsLastStar | src/World/Map.cpp:25-31 | within a line the last '*' sets the start to its column and the line's row, times 32 |
| LevelText.LineWithoutStarKeepsStart | src/World/Map.cpp:25-35 | a line without '*' leaves the start position unchanged |
| LevelText.ParseLinesRows | src/World/Map.cpp:23-41 | the grid has one row per non-empty line, row k holding the parse of the k-th non-empty line, and no empty row |
| LevelText.RowCount | src/World/Map.cpp:37-40 | the number of rows is the number of non-empty lines |
| LevelText.NoEmptyRow | src/World/Map.cpp:37-40 | an empty line adds no row |
| LevelText.RowOfLine | src/World/Map.cpp:37-40 | a non-empty line's row sits at the index counting the non-empty lines before it |
| LevelText.StartIsLastStar | src/World/Map.cpp:22-41 | the start is the top-left corner of the file's last '*', at its column and at the number of non-empty lines before it; a later '*' overwrites an earlier one |
| LevelText.NoStarKeepsStart | src/World/Map.cpp:22-41 | a file without '*' keeps the start position it had |
| LevelText.LineStartOnLine | src/World/Map.cpp:29-31 | a line's start is the one it was given or the corner of one of its own cells |
| LevelText.StartOnGrid | src/World/Map.cpp:22-41 | the parsed start is the one given or the top-left corner of a cell on one of the grid's rows |
| TileMap.Map.constructor | src/World/Map.hpp:68-69 | a new map has no rows, the start position (100, 100) and no finish areas |
| TileMap.Map.Width | src/World/Map.hpp:25-27 | the width is never negative, and is 0 exactly for a map without rows or with an empty row 0 |
| TileMap.Map.Height | src/World/Map.hpp:28 | the height is never negative, and is 0 exactly for a map without rows |
| TileMap.Map.GetStartPosition | src/World/Map.hpp:31 | the getter hands out the stored start position unchanged |
| TileMap.Map.CheckFinish | src/World/Map.hpp:39-40 | whether the bounds intersect a finish area, as InFinishArea over the map's finish areas |
| TileMap.InFinishArea | src/World/Map.hpp:39-40 | a box is in the finish when it intersects one of the finish rectangles with positive area |
| TileMap.DeathLine | src/Game.cpp:89 | the respawn line of both hosts: 200px below the bottom of the grid; TicksStayAboveDeathLine and PlayerTick state what it bounds |
| TileMap.Map.LoadFromFile | src/World/Map.cpp:13-42 | an unopenable file returns false before clearing the grid, leaving the map as it was; otherwise the grid and start are the parse of the lines from the old start, and the query answers for the new grid |
| TileMap.Map.ScanLine | src/World/Map.cpp:24-35 | the row built from a line is its parse; each '*' moves the start to its cell on row y; nothing else changes |
| TileMap.Map.CheckCollision | src/World/Map.cpp:55-89 | the nested scan returns exactly the map's query for the box |
| TileMap.Map.ScanRow | src/World/Map.cpp:78-85 | the inner loop collects the tiles of row y's wall cells in column order |
| TileMap.LoadedDimensions | src/World/Map.hpp:25-28 | after a load the height is 32 times the number of non-empty lines and the width 32 times the length of the first non-empty line |
| TileMap.NoRowsBefore | src/World/Map.cpp:37-40 | empty lines before the first non-empty one add no row |
| FixedStep.StepsInclusive | src/main.cpp:50-53 | the `while (acc >= T)` loop runs n ticks with n·T ≤ acc < (n+1)·T, that is acc div T |
| FixedStep.StepsStrict | src/Game.cpp:39-41 | the `while (acc > T)` loop runs none for no time, else n ticks with n·T < acc ≤ (n+1)·T |
| FixedStep.LeftInclusive | src/main.cpp:50-51 | after main's loop 0 ≤ remainder < T, and acc = ticks·T + remainder |
| FixedStep.LeftStrict | src/Game.cpp:39-41 | after Game's loop the remainder is at most T, and positive when any time accumulated |
| FixedStep.StrictLagsOnMultiples | src/Game.cpp:40-41 | at an exact multiple k·T the strict loop runs k-1 ticks and leaves one full frame pending, where main's loop runs k |
| FixedStep.LoopsAgreeOffMultiples | src/Game.cpp:40-41 | away from multiples of T both loops tick alike |
| FixedStep.StepsUnique | src/main.cpp:50-51 | only one number of frames brackets an amount of time |
| PlayerPhysics.Bounds | src/Entities/Player.cpp:26-28 | the queried box is the 24x32 hitbox grown by its 1px outline on every side |
| PlayerPhysics.Steer | src/Entities/Player.cpp:63-78 | with exactly one direction held vx moves by ±1500·dt; otherwise friction moves vx toward 0 by 1200·dt and never past it |
| PlayerPhysics.CapSpeed | src/Entities/Player.cpp:80-84 | the result lies in [-300, 300] and equals vx when vx already does |
| PlayerPhysics.WallDirOf | src/Entities/Player.cpp:96-103 | the wall direction is -1, 0 or 1; 1 iff the right probe hits, -1 iff only the left does |
| PlayerPhysics.Probe | src/Entities/Player.cpp:86-103 | the probe stage: the two probes 2px to either side, the right one winning, and the slide flag cleared; FloorReadsAsRightWall and PreCollisionStages state its effect |
| PlayerPhysics.Slide | src/Entities/Player.cpp:105-113 | sliding starts exactly when wallDir ≠ 0, vy > 0, airborne and the held direction matches, and then vy becomes min(vy, 80); nothing else changes |
| PlayerPhysics.Jump | src/Entities/Player.cpp:115-133 | the jump memory becomes this tick's key; with no rising edge nothing else changes; on the ground vy = -500 and the player leaves it; airborne at or sliding on a wall the velocity becomes (-wallDir·320, -480) |
| PlayerPhysics.CurrentGravity | src/Entities/Player.cpp:135-155 | the gravity is 1000 times 1, 0.7, 2 or 1.8, or 0, and 0 exactly when sliding and falling; the apex, short-hop and fast-fall rules fire under their conditions |
| PlayerPhysics.Gravity | src/Entities/Player.cpp:135-157 | this tick's gravity added to vy; GroundedJumpTakesOff and WallSlideClampsFall state its value in the jump and slide cases |
| PlayerPhysics.XContact | src/Entities/Player.cpp:167-197 | a wall with at least 5px vertical overlap whose centre lies on the side of travel stops the player flush against it with vx = 0; the player changes exactly when those conditions hold, and in no other way |
| PlayerPhysics.XPass | src/Entities/Player.cpp:167-198 | the X contacts of the walls in the query's order; XPassSnapsAtMostOnce and XPassTouchesOnlyX state its result |
| PlayerPhysics.Landed | src/Entities/Player.cpp:229-232 | a landing puts the bottom on the wall's top with vy = 0, grounded |
| PlayerPhysics.YContact | src/Entities/Player.cpp:209-256 | a wall with under 2px horizontal overlap changes nothing; with at least 2px, a fall whose bottom before the move was at most 15px below the wall's top lands on it, and a rise is nudged 6px left when that box is free, else 6px right when that one is, else stopped under the wall with vy = 0; the player changes exactly in these cases, and vx and the flags are always kept |
| PlayerPhysics.YPass | src/Entities/Player.cpp:209-257 | the Y contacts of the walls in the query's order; YPassLanding states when it grounds |
| PlayerPhysics.Facing | src/Entities/Player.cpp:280-285 | facing turns right above vx = 1, left below -1, and stays otherwise; nothing else changes |
| PlayerPhysics.Reset | src/Entities/Player.cpp:300-305 | the hitbox is centred on p, that is at p - (12, 16), at rest and not grounded; the other flags are kept |
| PlayerPhysics.Step | src/Entities/Player.cpp:53-292 | one update of any length dt: the stages in source order; StepInvariants and StepLandsOnTile state what it keeps |
| PlayerProperties.XPassSnapsAtMostOnce | src/Entities/Player.cpp:167-198 | the X pass either changes nothing or its result is the snap of one single wall |
| PlayerProperties.XPassTouchesOnlyX | src/Entities/Player.cpp:167-198 | the X pass changes only x and vx, and vx only to 0 |
| PlayerProperties.YPassLanding | src/Entities/Player.cpp:209-257 | an airborne player is grounded by the Y pass only through one falling snap onto a wall's top from at most 15px above, with vy = 0; a rise never grounds; vx and the flags are kept |
| PlayerProperties.FloorReadsAsRightWall | src/Entities/Player.cpp:86-103 | standing on a floor tile the right probe meets that tile, so wallDir reads 1 with no wall beside the player |
| PlayerProperties.PreCollisionStages | src/Entities/Player.cpp:62-157 | before the collision passes wallDir ∈ {-1,0,1}, sliding implies a wall, the jump memory is the key, and |vx| ≤ 320, ≤ 300 unless a jump fired |
| PlayerProperties.ResolveXKeeps | src/Entities/Player.cpp:161-198 | the X stage moves only along X and keeps vx or zeroes it |
| PlayerProperties.ShiftedXPass | src/Entities/Player.cpp:162-198 | the X pass after a horizontal move changes only x and vx, and vx only to 0 |
| PlayerProperties.ResolveYGrounds | src/Entities/Player.cpp:200-257 | against a map's query the Y stage keeps vx and the flags, and grounds the player only at rest on the top of a wall tile of the map |
| PlayerProperties.ShiftedYPass | src/Entities/Player.cpp:202-257 | the same for the Y pass after a vertical move |
| PlayerProperties.ResolveYKeeps | src/Entities/Player.cpp:200-257 | for any query the Y stage keeps vx and the flags, and grounded implies vy = 0 |
| PlayerProperties.ShiftedYKeeps | src/Entities/Player.cpp:202-257 | the same for the Y pass after a vertical move |
| PlayerProperties.StepInvariants | src/Entities/Player.cpp:53-257 | after an update of any length dt wallDir ∈ {-1,0,1}, sliding implies a wall, the jump memory is the key, grounded implies vy = 0, |vx| ≤ 320, and |vx| ≤ 300 unless a jump fired |
| PlayerProperties.StepLandsOnTile | src/Entities/Player.cpp:200-232 | against a map's query a player grounded after an update of any length dt has its bottom on the top of a wall tile |
| PlayerProperties.HeldJumpDoesNotRefire | src/Entities/Player.cpp:115-133 | with the key still held on the next tick the jump stage only records the key |
| PlayerProperties.GroundedJumpTakesOff | src/Entities/Player.cpp:119-157 | a grounded player on the key's rising edge leaves the ground with vy = -500, to which only the base gravity is added |
| PlayerProperties.WallSlideClampsFall | src/Entities/Player.cpp:105-154 | falling along a wall held toward it the player slides at min(vy, 80), and gravity adds nothing |
| PlayerProperties.ResetIdempotent | src/Entities/Player.cpp:300-305 | resetting twice to the same point is resetting once |
| PlayerEntity.Player.constructor | src/Entities/Player.cpp:5-48 | the hitbox starts at (100, 0), at rest, airborne, not sliding, no wall, facing right; the jump memory, which the constructor never sets, is the parameter |
| PlayerEntity.Player.GetPosition | src/Entities/Player.hpp:17 | the getter reads the position and changes nothing |
| PlayerEntity.Player.GetVelocity | src/Entities/Player.hpp:18 | the getter reads the velocity and changes nothing |
| PlayerEntity.Player.GetBounds | src/Entities/Player.hpp:19 | the bounds are the hitbox grown by 1px on every side: 26x34 at position - (1, 1) |
| PlayerEntity.Player.Update | src/Entities/Player.cpp:53-292 | one tick of the stages in order leaves the player in the state the tick function gives for the map's query |
| PlayerEntity.Player.Accelerate | src/Entities/Player.cpp:62-84 | acceleration or friction, then the cap |
| PlayerEntity.Player.DetectWalls | src/Entities/Player.cpp:86-103 | the two probes queried on the map set wallDir and clear the slide flag |
| PlayerEntity.Player.WallSlide | src/Entities/Player.cpp:105-113 | the wall-slide stage |
| PlayerEntity.Player.JumpOrWallJump | src/Entities/Player.cpp:115-133 | the edge-triggered jump stage |
| PlayerEntity.Player.ApplyGravity | src/Entities/Player.cpp:135-157 | this tick's gravity added to vy |
| PlayerEntity.Player.MoveAlongX | src/Entities/Player.cpp:161-198 | the move along X and the X pass over the map's answer |
| PlayerEntity.Player.ResolveXAxis | src/Entities/Player.cpp:167-198 | the loop over the walls leaves the X pass's result |
| PlayerEntity.Player.MoveAlongY | src/Entities/Player.cpp:200-257 | grounded cleared, the move along Y, and the Y pass over the map's answer |
| PlayerEntity.Player.ResolveYAxis | src/Entities/Player.cpp:209-257 | the loop over the walls leaves the Y pass's result |
| PlayerEntity.Player.ContactY | src/Entities/Player.cpp:210-256 | one wall of the Y pass, with the nudge probes queried on the map |
| PlayerEntity.Player.UpdateFacing | src/Entities/Player.cpp:280-285 | the facing stage |
| PlayerEntity.Player.Reset | src/Entities/Player.cpp:300-305 | the reset of the position, velocity and grounded flag, the rest kept |
| BoyPhysics.BoyBounds | src/Entities/Boy.cpp:5 | the queried box is the 30x30 shape itself |
| BoyPhysics.SteerVelocity | src/Entities/Boy.cpp:24-34 | vx is exactly -400, 0 or 400; 400 iff right is held, -400 iff only left is |
| BoyPhysics.Intent | src/Entities/Boy.cpp:22-45 | steering, the level-triggered jump and constant gravity; JumpIsLevelTriggered states the jump |
| BoyPhysics.Jump | src/Entities/Boy.cpp:36-42 | with the key held on the ground vy = -600 and the boy leaves it; otherwise nothing changes |
| BoyPhysics.XContact | src/Entities/Boy.cpp:55-74 | a wall with at least 5px vertical overlap puts the box flush on the side of travel, with no side check; the velocity is never changed |
| BoyPhysics.XPass | src/Entities/Boy.cpp:55-74 | the X contacts in the query's order; XPassLastSnapWins states its result |
| BoyPhysics.YContact | src/Entities/Boy.cpp:84-106 | a wall with at least 2px horizontal overlap lands a fall on its top (grounded) or stops a rise under it, with vy = 0; the boy changes exactly when the overlap is at least 2px and vy ≠ 0; vx and x are kept |
| BoyPhysics.YPass | src/Entities/Boy.cpp:84-106 | the Y contacts in the query's order; YPassFirstSnapWins states its result |
| BoyPhysics.Reset | src/Entities/Boy.cpp:111-114 | the shape exactly at p, at rest, airborne |
| BoyPhysics.Step | src/Entities/Boy.cpp:22-107 | one update of any length dt; StepFacts states what it keeps |
| BoyPhysics.XPassLastSnapWins | src/Entities/Boy.cpp:55-74 | the X pass keeps the velocity and y; its x is the snap of the last qualifying wall, or unchanged when none qualifies |
| BoyPhysics.XContactIgnoresX | src/Entities/Boy.cpp:58-73 | whether a wall acts, and where it puts the box, do not depend on the box's x |
| BoyPhysics.YPassFirstSnapWins | src/Entities/Boy.cpp:84-106 | the Y pass acts on at most one wall, the first that qualifies, and changes nothing iff no wall qualifies |
| BoyPhysics.StepFacts | src/Entities/Boy.cpp:22-107 | after an update of any length dt vx is exactly as the keys set it, and against a map's query a grounded boy is at rest on the top of a wall tile |
| BoyPhysics.ResolveXKeepsVelocity | src/Entities/Boy.cpp:50-74 | the X stage never changes the velocity |
| BoyPhysics.ShiftedXPass | src/Entities/Boy.cpp:50-74 | the X pass after a horizontal move keeps the velocity |
| BoyPhysics.ResolveYGrounds | src/Entities/Boy.cpp:78-106 | the Y stage keeps vx and grounds the boy only at rest on the top of a wall tile |
| BoyPhysics.ShiftedYPass | src/Entities/Boy.cpp:78-106 | the same for the Y pass after a vertical move |
| BoyPhysics.JumpIsLevelTriggered | src/Entities/Boy.cpp:36-45 | holding the key on the ground jumps on every such tick, whatever came before, to vy = -600 + 1500·dt |
| BoyPhysics.ResetIdempotent | src/Entities/Boy.cpp:111-114 | resetting twice to the same point is resetting once |
| BoyEntity.Boy.constructor | src/Entities/Boy.cpp:3-16 | the shape starts at (100, 0), at rest, airborne |
| BoyEntity.Boy.GetPosition | src/Entities/Boy.hpp:18 | the getter reads the position and changes nothing |
| BoyEntity.Boy.GetVelocity | src/Entities/Boy.hpp:19 | the getter reads the velocity and changes nothing |
| BoyEntity.Boy.Update | src/Entities/Boy.cpp:22-107 | one tick leaves the boy in the state the tick function gives for the map's query |
| BoyEntity.Boy.ApplyIntent | src/Entities/Boy.cpp:23-45 | the steering, the jump and the constant gravity |
| BoyEntity.Boy.MoveAlongX | src/Entities/Boy.cpp:49-74 | the move along X and the X pass over the map's answer |
| BoyEntity.Boy.ResolveXAxis | src/Entities/Boy.cpp:55-74 | the loop over the walls leaves the X pass's result |
| BoyEntity.Boy.MoveAlongY | src/Entities/Boy.cpp:76-106 | grounded cleared, the move along Y, and the Y pass over the map's answer |
| BoyEntity.Boy.ResolveYAxis | src/Entities/Boy.cpp:84-106 | the loop over the walls leaves the Y pass's result |
| BoyEntity.Boy.Reset | src/Entities/Boy.cpp:111-114 | the reset state |
| Camera.Clamp | src/Game.cpp:211-214 | the load's clamp ends at most at map - view/2, starts at view/2 or later on a map at least the view's size, and keeps a centre already inside |
| Camera.Axis | src/main.cpp:67-84 | on a map smaller than the view the centre is map/2; otherwise it lies in [view/2, map - view/2] and equals an inside position |
| Camera.Target | src/main.cpp:67-84 | the camera target on both axes, each an Axis of the map and view sizes |
| Camera.AxisKeepsViewOnMap | src/main.cpp:67-84 | the visible interval stays on a map at least the view's size; a smaller map sits in the middle of the view with equal margins |
| Camera.AxisMonotone | src/Game.cpp:107-122 | moving the tracked position forward never moves the target back |
| Camera.SmoothStaysBetween | src/Game.cpp:126-130 | for a factor in [0, 1] one smoothing step lands between the centre and the target |
| Camera.SmoothGap | src/Game.cpp:126-130 | after one step the gap to the target is the old gap times 1 - k |
| Camera.LerpIsSmooth | src/Game.cpp:126-130 | Game's step is the smoothing with factor 5·dt |
| Camera.Lerp | src/Game.cpp:126-130 | the centre moves 5·dt of the way to the target; LerpIsSmooth and LerpAtFrameStaysBetween state its effect |
| Camera.LerpAtFrameStaysBetween | src/Game.cpp:126-130 | at the fixed tick 0 < 5·dt < 1, so every camera step lands between centre and target |
| Camera.SmoothNShrinks | src/Game.cpp:107-130 | once the player rests the target stops moving, and then n ticks scale the camera's gap to it by 1 - k n times |
| Camera.SmoothNGap | src/Game.cpp:107-130 | once the player rests, the gap after n ticks is the first gap times (1 - k)^n: the camera closes in on a still player geometrically |
| MainHost.Tick | src/main.cpp:53-59 | a physics tick keeps the boy's update exactly when it ends at or above the death line (height + 200) and otherwise respawns at the start; it stays above the death line when the start does |
| MainHost.Ticks | src/main.cpp:50-60 | n physics ticks, tick i with the key state polled for it |
| MainHost.ClosedSkipsRest | src/main.cpp:37-47 | once the window is closed, the rest of the queue changes nothing |
| MainHost.OnEvents | src/main.cpp:37-47 | the frame's events in order, none after Closed; EventsEffect states its result |
| MainHost.EventsEffect | src/main.cpp:37-47 | a frame's events close the window iff Closed is among them; the boy is kept or at the start at rest; R without Closed puts it there; without R it is kept |
| MainHost.Launch | src/main.cpp:15-21 | the map is loaded from the file, or left with its defaults, and the boy is put at its start |
| MainHost.LaunchStartAboveDeathLine | src/main.cpp:15-21 | a launched map's start lies above its death line |
| MainHost.PollEvents | src/main.cpp:37-47 | the event loop leaves the boy and the open flag as the event fold gives them |
| MainHost.RunPhysics | src/main.cpp:50-60 | the loop runs acc div T ticks, each an update with the key state polled for it and the fall respawn, and leaves acc mod T |
| MainHost.PhysicsTick | src/main.cpp:51-59 | one pass of the loop's body is one more tick |
| MainHost.FollowCamera | src/main.cpp:62-84 | the camera centres a map smaller than the view and otherwise lies in [view/2, map - view/2] on each axis |
| MainHost.Frame | src/main.cpp:31-87 | a pass of the game loop: the window stays open iff no Closed arrived, the remainder is below a frame, the boy is the result of the ticks, each with its own key state, after the events, and the camera follows it |
| MainHost.TicksStayAboveDeathLine | src/main.cpp:50-60 | a boy starting above the death line stays above it after any number of ticks, whatever keys each tick polls |
| GameRules.NextMode | src/Game.cpp:230 | the next window mode is in 0..2 |
| GameRules.ModesCycle | src/Game.cpp:230 | the modes go 0 → 1 → 2 → 0, and three presses of F4 restore the mode |
| GameRules.NextWindow | src/Game.cpp:229-250 | F4 moves to the next mode and sizes the camera to half the new window (640x360 windowed, half the desktop otherwise), changing nothing else |
| GameRules.ClosedSkipsRest | src/Game.cpp:50-83 | once the window is closed, the rest of the queue changes nothing |
| GameRules.OnEvents | src/Game.cpp:50-83 | the tick's events in order, none after Closed; EventsEffect states its result |
| GameRules.EventsEffect | src/Game.cpp:50-83 | the events keep the player or put it at the start (only through R), never move the camera centre, keep the mode in range and change it only through F4, the view size only through Resized or F4, and close the window only through Closed |
| GameRules.TogglesTwiceRestore | src/Game.cpp:69-76 | F1 twice or F2 twice restores the state |
| GameRules.PlayerTick | src/Game.cpp:85-97 | the tick's result is kept iff it neither fell 200px below the map nor reached a finish area, and otherwise is reset to the start; it stays above the death line when the start does |
| GameRules.CameraTick | src/Game.cpp:99-132 | the camera's part of update: a lerp toward the clamped target on each axis; CameraStaysOnMap states what it keeps |
| GameRules.CameraStaysOnMap | src/Game.cpp:99-134 | a camera inside the clamp range of a map at least the view's size stays inside after a tick |
| GameRules.Advance | src/Game.cpp:85-134 | update changes only the player and the camera centre |
| GameRules.GameTicks | src/Game.cpp:39-44 | n ticks of the run loop, tick i with its own events and the key state polled for it |
| GameRules.LoadCenterOnNarrowMap | src/Game.cpp:211-214 | on a map narrower than the view the load's centre puts the view's right edge on the map's, left of the update's centred target |
| GameRules.LoadCenter | src/Game.cpp:211-215 | the load's camera centre: the player clamped to the map without centring a small map |
| GameHost.Game.constructor | src/Game.cpp:6-30 | windowed, camera at (0, 0) showing 640x360, toggles off, a new player with the given unset jump memory, and the level loaded |
| GameHost.Game.LoadLevel | src/Game.cpp:202-227 | a failed load leaves player, camera and map untouched; a successful one takes the parse, resets the player to the start and clamps the camera on it |
| GameHost.Game.ProcessEvents | src/Game.cpp:50-83 | the queue is handled while the window is open, as the event fold gives it |
| GameHost.Game.HandleEvent | src/Game.cpp:51-81 | one event: Closed, Resized at 2x zoom, R, F1, F2 or F4 |
| GameHost.Game.CycleWindowMode | src/Game.cpp:229-255 | the next mode and the camera sized to half the new window |
| GameHost.Game.Update | src/Game.cpp:85-134 | the player's tick with its two respawns, then the camera step toward the clamped target |
| GameHost.Game.FollowPlayer | src/Game.cpp:99-132 | the camera centre moves 5·dt of the way to the clamped target for the player's position |
| GameHost.Game.UpdatePlayer | src/Game.cpp:86-97 | the update, the fall respawn, then the finish respawn |
| GameHost.Game.RunFrame | src/Game.cpp:35-47 | while more than a frame is pending each tick handles its own events and updates with its own key state; it runs StepsStrict ticks and leaves LeftStrict |
| GameHost.Game.GameTick | src/Game.cpp:40-44 | one pass of the loop's body is one more tick |

## Left out

- Rendering, windows, textures, sprites, fonts, the parallax background and the FPS counter. These are SFML calls with no effect on the simulation.
- Keyboard polling. It is replaced by the `Input` record each update receives.
- The event queue. It is a sequence of `Event`s per frame.
- The outer `while (window.isOpen())` loops and `sf::Clock`. The frame's elapsed microseconds are a parameter of `Frame` and `RunFrame`.
- File opening and reading. `Option<LevelFile>` stands for the opened file's lines, or for a file that could not be opened.
- The TMX/XML parser, the texture layer and the text objects of `Map.hpp`. Their bodies are not shown.
- `finishAreas` as a whole. It is supplied with the `LevelFile`, because the object-layer parser that fills it is not shown.
- TileMap.Map.CheckFinish: its body is not shown. It is modelled as a strict positive-area intersection of the bounds with some finish area, as its comment describes.
- IEEE float rounding. Coordinates, velocities and the 0.7, 2.0 and 1.8 gravity factors are exact reals.
- The idle animation, sprite placement and sprite scaling of the player. These are presentation only.
- `RetroBoy/RetroBoy/RetroBoy.cpp`. It is a placeholder loop whose physics step is only a comment.
- PlayerEntity.Player.Update: the tick length is fixed to the frame's 16666 µs instead of a `dt` parameter, because both hosts only ever pass that value.
- BoyEntity.Boy.Update: the tick length is fixed to the frame's 16666 µs instead of a `dt` parameter, because main.cpp only ever passes that value.
- GameHost.Game.CycleWindowMode: the window recreation is left out. The desktop resolution is a parameter, and the event queue is not affected by the new window.
- The mode, hitbox and FPS flags declared in Game.hpp start at 0/false. Game.hpp is not part of this model.
- TileMap.Map.CheckCollision: a map without rows is excluded by a precondition, because the source then reads `grid[0]` outside the vector.
- The collision query values. `Map.query` is a ghost function value, tied by `Map.Valid()` to the scan of the current grid. The entities' functions are stated over such a value, not over the grid itself.
