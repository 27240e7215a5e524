/** The player's kinematic state machine (Player::update) as a pure
    function of the state, the tick length, the sampled input and the map's
    collision query. One tick runs, in order: acceleration or friction and the speed cap, the
    two wall probes, the wall-slide clamp, the edge-triggered jump or wall
    jump, priority-ordered gravity, and the collision pass along X and then
    along Y. */
module PlayerPhysics {
  import opened Geometry
  import opened Controls
  import opened TileQuery

  // Tuning, fixed when the player is constructed.
  const MOVE_SPEED: real := 300.0
  const ACCELERATION: real := 1500.0
  const FRICTION: real := 1200.0
  const GRAVITY: real := 1000.0
  const JUMP_STRENGTH: real := 500.0
  const WALL_SLIDE_SPEED: real := 80.0
  const WALL_JUMP_FORCE: Vec2 := Vec2(320.0, 480.0)

  /** The hitbox: 24x32, its position is its top-left corner. */
  const SIZE: Vec2 := Vec2(24.0, 32.0)
  /** The hitbox's outline thickness, which its global bounds include. */
  const OUTLINE: real := 1.0

  const PROBE_OFFSET: real := 2.0
  const PEAK_THRESHOLD: real := 50.0
  const PEAK_FACTOR: real := 0.7
  const SHORT_HOP_FACTOR: real := 2.0
  const FAST_FALL_FACTOR: real := 1.8
  /** Vertical overlap below which an X contact is a floor or ceiling seam. */
  const SEAM_TOLERANCE: real := 5.0
  /** Horizontal overlap below which a Y contact is a side wall. */
  const SIDE_TOLERANCE: real := 2.0
  /** How far above a tile's top the bottom may have been for a landing. */
  const LANDING_TOLERANCE: real := 15.0
  const CORNER_MARGIN: real := 6.0

  /** The player's state: hitbox position, velocity and the flags. */
  datatype Body = Body(pos: Vec2, vel: Vec2, grounded: bool, sliding: bool,
                       wallDir: int, wasJumpPressed: bool, facingRight: bool)

  /** shape.getGlobalBounds(): the hitbox grown by its outline on every side. */
  function Bounds(pos: Vec2): (r: Rect)
    ensures r.x == pos.x - OUTLINE && r.Right() == pos.x + SIZE.x + OUTLINE
    ensures r.y == pos.y - OUTLINE && r.Bottom() == pos.y + SIZE.y + OUTLINE
  {
    Rect(pos.x - OUTLINE, pos.y - OUTLINE, SIZE.x + 2.0 * OUTLINE, SIZE.y + 2.0 * OUTLINE)
  }

  // ---------------------------------------------------------------------
  // 1. Horizontal intent

  /** Acceleration with exactly one direction held, friction otherwise. */
  function Steer(vx: real, input: Input, dt: real): (r: real)
    ensures input.left && !input.right ==> r == vx - ACCELERATION * dt
    ensures input.right && !input.left ==> r == vx + ACCELERATION * dt
    // friction moves toward 0 and never past it
    ensures input.left == input.right && dt >= 0.0 ==>
              (vx >= 0.0 ==> 0.0 <= r <= vx) && (vx <= 0.0 ==> vx <= r <= 0.0)
    ensures input.left == input.right && dt >= 0.0 && vx >= FRICTION * dt ==> r == vx - FRICTION * dt
    ensures input.left == input.right && dt >= 0.0 && vx <= -FRICTION * dt ==> r == vx + FRICTION * dt
  {
    if input.left && !input.right then vx - ACCELERATION * dt
    else if input.right && !input.left then vx + ACCELERATION * dt
    else if vx > 0.0 then (if vx - FRICTION * dt < 0.0 then 0.0 else vx - FRICTION * dt)
    else if vx < 0.0 then (if vx + FRICTION * dt > 0.0 then 0.0 else vx + FRICTION * dt)
    else vx
  }

  function CapSpeed(vx: real): (r: real)
    ensures -MOVE_SPEED <= r <= MOVE_SPEED
    ensures -MOVE_SPEED <= vx <= MOVE_SPEED ==> r == vx
    ensures vx > MOVE_SPEED ==> r == MOVE_SPEED
    ensures vx < -MOVE_SPEED ==> r == -MOVE_SPEED
  {
    if vx > MOVE_SPEED then MOVE_SPEED else if vx < -MOVE_SPEED then -MOVE_SPEED else vx
  }

  function Horizontal(b: Body, input: Input, dt: real): Body {
    b.(vel := b.vel.(x := CapSpeed(Steer(b.vel.x, input, dt))))
  }

  // ---------------------------------------------------------------------
  // 2. Wall probes

  /** The right probe is evaluated after the left one and overrides it. */
  function WallDirOf(touchingLeft: bool, touchingRight: bool): (d: int)
    ensures -1 <= d <= 1
    ensures d == 1 <==> touchingRight
    ensures d == -1 <==> touchingLeft && !touchingRight
  {
    if touchingRight then 1 else if touchingLeft then -1 else 0
  }

  /** Probes the bounds shifted 2px left and right; resets the slide flag. */
  function Probe(b: Body, q: Query): Body
  {
    var bounds := Bounds(b.pos);
    var touchingLeft := q(bounds.MovedX(-PROBE_OFFSET)) != [];
    var touchingRight := q(bounds.MovedX(PROBE_OFFSET)) != [];
    b.(sliding := false, wallDir := WallDirOf(touchingLeft, touchingRight))
  }

  // ---------------------------------------------------------------------
  // 3. Wall slide

  predicate SlideCondition(b: Body, input: Input) {
    b.wallDir != 0 && b.vel.y > 0.0 && !b.grounded &&
    ((b.wallDir == -1 && input.left) || (b.wallDir == 1 && input.right))
  }

  function Slide(b: Body, input: Input): (r: Body)
    ensures r.sliding <==> b.sliding || SlideCondition(b, input)
    ensures SlideCondition(b, input) ==> 0.0 < r.vel.y <= WALL_SLIDE_SPEED &&
                                         r.vel.y == Min(b.vel.y, WALL_SLIDE_SPEED)
    ensures r == b.(sliding := r.sliding, vel := b.vel.(y := r.vel.y))
    ensures !SlideCondition(b, input) ==> r == b
  {
    if SlideCondition(b, input) then
      b.(sliding := true,
         vel := b.vel.(y := if b.vel.y > WALL_SLIDE_SPEED then WALL_SLIDE_SPEED else b.vel.y))
    else b
  }

  // ---------------------------------------------------------------------
  // 4. Jump and wall jump

  /** Fires only on the tick the jump key goes down; the memory of the key
      is updated on every tick. */
  function Jump(b: Body, input: Input): (r: Body)
    ensures r.wasJumpPressed == input.jump
    ensures r.pos == b.pos && r.sliding == b.sliding && r.wallDir == b.wallDir &&
            r.facingRight == b.facingRight
    ensures !(input.jump && !b.wasJumpPressed) ==> r == b.(wasJumpPressed := input.jump)
    ensures input.jump && !b.wasJumpPressed && b.grounded ==>
              r.vel == b.vel.(y := -JUMP_STRENGTH) && !r.grounded
    ensures input.jump && !b.wasJumpPressed && !b.grounded && (b.sliding || b.wallDir != 0) ==>
              r.vel == Vec2(-b.wallDir as real * WALL_JUMP_FORCE.x, -WALL_JUMP_FORCE.y) && !r.grounded
    ensures !b.grounded && !b.sliding && b.wallDir == 0 ==> r == b.(wasJumpPressed := input.jump)
  {
    var fired := input.jump && !b.wasJumpPressed;
    var jumped :=
      if !fired then b
      else if b.grounded then b.(vel := b.vel.(y := -JUMP_STRENGTH), grounded := false)
      else if b.sliding || (b.wallDir != 0 && !b.grounded) then
        b.(vel := Vec2(-b.wallDir as real * WALL_JUMP_FORCE.x, -WALL_JUMP_FORCE.y))
      else b;
    jumped.(wasJumpPressed := input.jump)
  }

  // ---------------------------------------------------------------------
  // 5. Gravity

  /** The gravity of this tick: the first matching rule wins. */
  function CurrentGravity(b: Body, input: Input): (gr: real)
    ensures gr == GRAVITY || gr == GRAVITY * PEAK_FACTOR || gr == GRAVITY * SHORT_HOP_FACTOR ||
            gr == GRAVITY * FAST_FALL_FACTOR || gr == 0.0
    ensures b.sliding && b.vel.y > 0.0 ==> gr == 0.0
    ensures gr == 0.0 ==> b.sliding && b.vel.y > 0.0
    ensures -PEAK_THRESHOLD < b.vel.y < PEAK_THRESHOLD && !b.grounded && !b.sliding ==>
              gr == GRAVITY * PEAK_FACTOR
    ensures b.vel.y <= -PEAK_THRESHOLD && !input.jump ==> gr == GRAVITY * SHORT_HOP_FACTOR
    ensures b.vel.y >= PEAK_THRESHOLD && !b.sliding ==> gr == GRAVITY * FAST_FALL_FACTOR
  {
    if -PEAK_THRESHOLD < b.vel.y < PEAK_THRESHOLD && !b.grounded && !b.sliding then GRAVITY * PEAK_FACTOR
    else if b.vel.y < 0.0 && !input.jump then GRAVITY * SHORT_HOP_FACTOR
    else if b.vel.y > 0.0 then (if !b.sliding then GRAVITY * FAST_FALL_FACTOR else 0.0)
    else GRAVITY
  }

  function Gravity(b: Body, input: Input, dt: real): Body {
    b.(vel := b.vel.(y := b.vel.y + CurrentGravity(b, input) * dt))
  }

  // ---------------------------------------------------------------------
  // 6a. Collision pass along X

  /** One wall of the X pass: a seam contact is skipped; otherwise a wall on
      the side of travel, by centre comparison, stops the player flush
      against it. */
  function XContact(b: Body, wall: Rect): (r: Body)
    ensures b.vel.x == 0.0 ==> r == b
    ensures r == b || (r == b.(pos := b.pos.(x := r.pos.x), vel := b.vel.(x := 0.0)) &&
                       b.vel.x != 0.0 &&
                       Overlap(Bounds(b.pos).y, Bounds(b.pos).Bottom(), wall.y, wall.Bottom()) >= SEAM_TOLERANCE)
    ensures r != b && b.vel.x > 0.0 ==>
              r.pos.x + SIZE.x == wall.x && wall.x + wall.w / 2.0 > b.pos.x + SIZE.x / 2.0
    ensures r != b && b.vel.x < 0.0 ==>
              r.pos.x == wall.Right() && wall.x + wall.w / 2.0 < b.pos.x + SIZE.x / 2.0
    ensures Overlap(Bounds(b.pos).y, Bounds(b.pos).Bottom(), wall.y, wall.Bottom()) >= SEAM_TOLERANCE &&
            b.vel.x > 0.0 && wall.x + wall.w / 2.0 > b.pos.x + SIZE.x / 2.0 ==>
              r == b.(pos := b.pos.(x := wall.x - SIZE.x), vel := b.vel.(x := 0.0))
    ensures Overlap(Bounds(b.pos).y, Bounds(b.pos).Bottom(), wall.y, wall.Bottom()) >= SEAM_TOLERANCE &&
            b.vel.x < 0.0 && wall.x + wall.w / 2.0 < b.pos.x + SIZE.x / 2.0 ==>
              r == b.(pos := b.pos.(x := wall.Right()), vel := b.vel.(x := 0.0))
    ensures r != b <==>
              Overlap(Bounds(b.pos).y, Bounds(b.pos).Bottom(), wall.y, wall.Bottom()) >= SEAM_TOLERANCE &&
              ((b.vel.x > 0.0 && wall.x + wall.w / 2.0 > b.pos.x + SIZE.x / 2.0) ||
               (b.vel.x < 0.0 && wall.x + wall.w / 2.0 < b.pos.x + SIZE.x / 2.0))
  {
    var bounds := Bounds(b.pos);
    var overlapY := Overlap(bounds.y, bounds.Bottom(), wall.y, wall.Bottom());
    if overlapY < SEAM_TOLERANCE then b
    else
      var playerCenter := b.pos.x + SIZE.x / 2.0;
      var wallCenter := wall.x + wall.w / 2.0;
      if b.vel.x > 0.0 then
        (if wallCenter > playerCenter
         then b.(pos := b.pos.(x := wall.x - SIZE.x), vel := b.vel.(x := 0.0)) else b)
      else if b.vel.x < 0.0 then
        (if wallCenter < playerCenter
         then b.(pos := b.pos.(x := wall.x + wall.w), vel := b.vel.(x := 0.0)) else b)
      else b
  }

  /** The walls in the order the query returned them. */
  function XPass(b: Body, walls: seq<Rect>): Body
    decreases |walls|
  {
    if walls == [] then b else XContact(XPass(b, walls[..|walls| - 1]), walls[|walls| - 1])
  }

  function ResolveX(b: Body, dt: real, q: Query): Body
  {
    ShiftX(b, b.pos.x + Travel(b.vel.x, dt), q)
  }

  /** The X pass once the hitbox's left edge has moved to x. */
  function ShiftX(b: Body, x: real, q: Query): Body
  {
    var moved := b.(pos := b.pos.(x := x));
    XPass(moved, q(Bounds(moved.pos)))
  }

  // ---------------------------------------------------------------------
  // 6b. Collision pass along Y

  /** The state after landing on a wall's top. */
  function Landed(b: Body, wall: Rect): Body {
    b.(pos := b.pos.(y := wall.y - SIZE.y), vel := b.vel.(y := 0.0), grounded := true)
  }

  /** One wall of the Y pass: a side contact is skipped; a fall lands on the
      tile only if the bottom before the move was at most 15px below its top;
      a rise is nudged 6px left, else 6px right, when that box is free, and is
      otherwise stopped at the tile's bottom. */
  function YContact(b: Body, wall: Rect, prevBottom: real, q: Query): (r: Body)
    ensures b.vel.y == 0.0 ==> r == b
    ensures r.vel.x == b.vel.x && r.sliding == b.sliding && r.wallDir == b.wallDir &&
            r.wasJumpPressed == b.wasJumpPressed && r.facingRight == b.facingRight
    ensures b.vel.y > 0.0 ==> r == b || (r == Landed(b, wall) && prevBottom <= wall.y + LANDING_TOLERANCE)
    ensures b.vel.y < 0.0 ==>
              r == b ||
              r == b.(pos := b.pos.(x := b.pos.x - CORNER_MARGIN)) ||
              r == b.(pos := b.pos.(x := b.pos.x + CORNER_MARGIN)) ||
              r == b.(pos := b.pos.(y := wall.Bottom()), vel := b.vel.(y := 0.0))
    ensures Overlap(Bounds(b.pos).x, Bounds(b.pos).Right(), wall.x, wall.Right()) < SIDE_TOLERANCE ==> r == b
    ensures Overlap(Bounds(b.pos).x, Bounds(b.pos).Right(), wall.x, wall.Right()) >= SIDE_TOLERANCE &&
            b.vel.y > 0.0 && prevBottom <= wall.y + LANDING_TOLERANCE ==>
              r == Landed(b, wall)
    ensures Overlap(Bounds(b.pos).x, Bounds(b.pos).Right(), wall.x, wall.Right()) >= SIDE_TOLERANCE &&
            b.vel.y < 0.0 ==>
              if q(Bounds(b.pos).MovedX(-CORNER_MARGIN)) == [] then
                r == b.(pos := b.pos.(x := b.pos.x - CORNER_MARGIN))
              else if q(Bounds(b.pos).MovedX(CORNER_MARGIN)) == [] then
                r == b.(pos := b.pos.(x := b.pos.x + CORNER_MARGIN))
              else r == b.(pos := b.pos.(y := wall.Bottom()), vel := b.vel.(y := 0.0))
    ensures r != b <==>
              Overlap(Bounds(b.pos).x, Bounds(b.pos).Right(), wall.x, wall.Right()) >= SIDE_TOLERANCE &&
              ((b.vel.y > 0.0 && prevBottom <= wall.y + LANDING_TOLERANCE) || b.vel.y < 0.0)
  {
    var bounds := Bounds(b.pos);
    var overlapX := Overlap(bounds.x, bounds.Right(), wall.x, wall.Right());
    if overlapX < SIDE_TOLERANCE then b
    else if b.vel.y > 0.0 then
      if prevBottom > wall.y + LANDING_TOLERANCE then b
      else Landed(b, wall)
    else if b.vel.y < 0.0 then
      if q(bounds.MovedX(-CORNER_MARGIN)) == [] then
        b.(pos := b.pos.(x := b.pos.x - CORNER_MARGIN))
      else if q(bounds.MovedX(CORNER_MARGIN)) == [] then
        b.(pos := b.pos.(x := b.pos.x + CORNER_MARGIN))
      else b.(pos := b.pos.(y := wall.y + wall.h), vel := b.vel.(y := 0.0))
    else b
  }

  function YPass(b: Body, walls: seq<Rect>, prevBottom: real, q: Query): Body
    decreases |walls|
  {
    if walls == [] then b
    else YContact(YPass(b, walls[..|walls| - 1], prevBottom, q), walls[|walls| - 1], prevBottom, q)
  }

  /** Clears grounded, moves along Y and resolves against the new contacts. */
  function ResolveY(b: Body, dt: real, q: Query): Body
  {
    ShiftY(b, b.pos.y + Travel(b.vel.y, dt), b.pos.y + SIZE.y, q)
  }

  /** The Y pass once the player has left the ground and its top edge has
      moved to y; prevBottom is its bottom before the move. */
  function ShiftY(b: Body, y: real, prevBottom: real, q: Query): Body
  {
    var moved := b.(grounded := false, pos := b.pos.(y := y));
    YPass(moved, q(Bounds(moved.pos)), prevBottom, q)
  }

  // ---------------------------------------------------------------------
  // 7. Facing

  /** Facing flips only beyond 1px/s, so a nearly still player keeps it. */
  function Facing(b: Body): (r: Body)
    ensures r == b.(facingRight := r.facingRight)
    ensures b.vel.x > 1.0 ==> r.facingRight
    ensures b.vel.x < -1.0 ==> !r.facingRight
    ensures -1.0 <= b.vel.x <= 1.0 ==> r.facingRight == b.facingRight
  {
    if b.vel.x > 1.0 then b.(facingRight := true)
    else if b.vel.x < -1.0 then b.(facingRight := false)
    else b
  }

  // ---------------------------------------------------------------------
  // The tick, and reset

  function Step(b: Body, dt: real, input: Input, q: Query): Body
  {
    var moved := Gravity(Jump(Slide(Probe(Horizontal(b, input, dt), q), input), input), input, dt);
    Facing(ResolveY(ResolveX(moved, dt, q), dt, q))
  }

  /** Player::reset: the hitbox centred on p, velocity zero, not grounded;
      the slide flag, the wall direction, the jump memory and the facing are
      left as they were. */
  function Reset(b: Body, p: Vec2): (r: Body)
    ensures r.pos.x + SIZE.x / 2.0 == p.x && r.pos.y + SIZE.y / 2.0 == p.y
    ensures r.vel == Vec2(0.0, 0.0) && !r.grounded
    ensures r.sliding == b.sliding && r.wallDir == b.wallDir &&
            r.wasJumpPressed == b.wasJumpPressed && r.facingRight == b.facingRight
  {
    b.(pos := Vec2(p.x - SIZE.x / 2.0, p.y - SIZE.y / 2.0), vel := Vec2(0.0, 0.0), grounded := false)
  }
}
