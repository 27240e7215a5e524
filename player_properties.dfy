/** What one tick of the player's state machine guarantees, proved from the
    stage functions. */
module PlayerProperties {
  import opened Geometry
  import opened Controls
  import opened TileQuery
  import opened PlayerPhysics
  import opened FixedStep

  /** The X pass stops the player at most once: the first wall that snaps
      zeroes the horizontal velocity, and no later wall matches either
      direction of travel. */
  lemma {:induction false} XPassSnapsAtMostOnce(b: Body, walls: seq<Rect>)
    ensures XPass(b, walls) == b ||
            exists i :: 0 <= i < |walls| && XContact(b, walls[i]) != b && XPass(b, walls) == XContact(b, walls[i])
    decreases |walls|
  {
    if walls != [] {
      var prefix := walls[..|walls| - 1];
      XPassSnapsAtMostOnce(b, prefix);
      if XPass(b, prefix) != b {
        var i :| 0 <= i < |prefix| && XContact(b, prefix[i]) != b && XPass(b, prefix) == XContact(b, prefix[i]);
        assert prefix[i] == walls[i];
      }
    }
  }

  /** The X pass changes only the horizontal position and velocity, and the
      velocity only to zero. */
  lemma XPassTouchesOnlyX(b: Body, walls: seq<Rect>)
    ensures var r := XPass(b, walls);
            r == b.(pos := b.pos.(x := r.pos.x), vel := b.vel.(x := r.vel.x)) &&
            (r.vel.x == b.vel.x || r.vel.x == 0.0)
  {
    XPassSnapsAtMostOnce(b, walls);
  }

  /** The Y pass of a player that is not grounded: it becomes grounded only
      by one falling snap that puts its bottom on a tile's top, from at most
      15px above that top, with vertical velocity zero; a fall that does not
      land is untouched; a rise or a standstill never grounds. */
  lemma {:induction false} YPassLanding(b: Body, walls: seq<Rect>, prevBottom: real, q: Query)
    requires !b.grounded
    ensures var r := YPass(b, walls, prevBottom, q);
            (r.grounded ==>
               b.vel.y > 0.0 &&
               exists i :: 0 <= i < |walls| && r == Landed(b, walls[i]) &&
                           prevBottom <= walls[i].y + LANDING_TOLERANCE) &&
            (b.vel.y > 0.0 && !r.grounded ==> r == b) &&
            (b.vel.y == 0.0 ==> r == b) &&
            (b.vel.y < 0.0 ==> !r.grounded && (r.vel.y == b.vel.y || r.vel.y == 0.0)) &&
            r.vel.x == b.vel.x && r.sliding == b.sliding && r.wallDir == b.wallDir &&
            r.wasJumpPressed == b.wasJumpPressed && r.facingRight == b.facingRight
    decreases |walls|
  {
    if walls != [] {
      var prefix := walls[..|walls| - 1];
      var last := walls[|walls| - 1];
      YPassLanding(b, prefix, prevBottom, q);
      var p := YPass(b, prefix, prevBottom, q);
      if p.grounded {
        var i :| 0 <= i < |prefix| && p == Landed(b, prefix[i]) && prevBottom <= prefix[i].y + LANDING_TOLERANCE;
        assert prefix[i] == walls[i];
      } else if b.vel.y > 0.0 {
        assert p == b;
        if YContact(b, last, prevBottom, q) != b {
          assert YPass(b, walls, prevBottom, q) == Landed(b, walls[|walls| - 1]);
        }
      }
    }
  }

  /** Standing on a floor, the right probe meets the floor tile itself (the
      probes keep the full height of the bounds and the query includes the
      bottom edge), so the wall direction reads 1 with no wall beside. */
  lemma FloorReadsAsRightWall(b: Body, q: Query, g: Grid, c: Cell)
    requires |g| > 0 && Answers(q, g) && IsWall(g, c.x, c.y) && c.x < |g[0]|
    requires b.pos.y + SIZE.y == c.y as real * TILE_SIZE
    requires c.x as real * TILE_SIZE <= b.pos.x + SIZE.x + OUTLINE + PROBE_OFFSET
    requires b.pos.x + PROBE_OFFSET - OUTLINE < (c.x + 1) as real * TILE_SIZE
    ensures Probe(b, q).wallDir == 1
  {
    var probe := Bounds(b.pos).MovedX(PROBE_OFFSET);
    QueryMatchesGeometry(g, probe, c);
    assert q(probe) == Collisions(g, probe);
  }

  /** The stages before the collision passes: the wall direction comes from
      the probes, sliding needs a wall, the jump memory is this tick's key,
      and the horizontal speed is capped unless a wall jump fired. */
  lemma PreCollisionStages(b: Body, dt: real, input: Input, q: Query)
    ensures var s := Gravity(Jump(Slide(Probe(Horizontal(b, input, dt), q), input), input), input, dt);
            -1 <= s.wallDir <= 1 && (s.sliding ==> s.wallDir != 0) &&
            s.wasJumpPressed == input.jump &&
            -WALL_JUMP_FORCE.x <= s.vel.x <= WALL_JUMP_FORCE.x &&
            (!(input.jump && !b.wasJumpPressed) ==> -MOVE_SPEED <= s.vel.x <= MOVE_SPEED)
  {
    var b1 := Horizontal(b, input, dt);
    var b2 := Probe(b1, q);
    var b3 := Slide(b2, input);
    assert b3.wasJumpPressed == b.wasJumpPressed && b3.vel.x == b1.vel.x;
    assert -MOVE_SPEED <= b3.vel.x <= MOVE_SPEED;
  }

  /** The X pass of a tick moves only along X and either keeps the
      horizontal velocity or zeroes it. */
  lemma ResolveXKeeps(b: Body, dt: real, q: Query)
    ensures var r := ResolveX(b, dt, q);
            r == b.(pos := b.pos.(x := r.pos.x), vel := b.vel.(x := r.vel.x)) &&
            (r.vel.x == b.vel.x || r.vel.x == 0.0)
  {
    ShiftedXPass(b, b.pos.x + Travel(b.vel.x, dt), q(Bounds(b.pos.(x := b.pos.x + Travel(b.vel.x, dt)))));
  }

  lemma ShiftedXPass(b: Body, x: real, walls: seq<Rect>)
    ensures var r := XPass(b.(pos := b.pos.(x := x)), walls);
            r == b.(pos := b.pos.(x := r.pos.x), vel := b.vel.(x := r.vel.x)) &&
            (r.vel.x == b.vel.x || r.vel.x == 0.0)
  {
    XPassTouchesOnlyX(b.(pos := b.pos.(x := x)), walls);
  }

  /** The Y pass of a tick keeps the horizontal velocity and the flags, and
      leaves the player grounded only standing still on the top of a wall
      tile. */
  lemma ResolveYGrounds(b: Body, dt: real, q: Query, g: Grid)
    requires |g| > 0 && Answers(q, g)
    ensures var r := ResolveY(b, dt, q);
            r.vel.x == b.vel.x && r.sliding == b.sliding && r.wallDir == b.wallDir &&
            r.wasJumpPressed == b.wasJumpPressed && r.facingRight == b.facingRight &&
            (r.grounded ==>
               r.vel.y == 0.0 &&
               exists c: Cell :: IsWall(g, c.x, c.y) && r.pos.y + SIZE.y == c.y as real * TILE_SIZE)
  {
    ShiftedYPass(b, b.pos.y + Travel(b.vel.y, dt), b.pos.y + SIZE.y, q, g);
  }

  lemma ShiftedYPass(b: Body, y: real, prevBottom: real, q: Query, g: Grid)
    requires |g| > 0 && Answers(q, g)
    ensures var r := ShiftY(b, y, prevBottom, q);
            r.vel.x == b.vel.x && r.sliding == b.sliding && r.wallDir == b.wallDir &&
            r.wasJumpPressed == b.wasJumpPressed && r.facingRight == b.facingRight &&
            (r.grounded ==>
               r.vel.y == 0.0 &&
               exists c: Cell :: IsWall(g, c.x, c.y) && r.pos.y + SIZE.y == c.y as real * TILE_SIZE)
  {
    var moved := b.(grounded := false, pos := b.pos.(y := y));
    var walls := q(Bounds(moved.pos));
    assert walls == Collisions(g, Bounds(moved.pos));
    YPassLanding(moved, walls, prevBottom, q);
    var r := YPass(moved, walls, prevBottom, q);
    if r.grounded {
      var i :| 0 <= i < |walls| && r == Landed(moved, walls[i]) && prevBottom <= walls[i].y + LANDING_TOLERANCE;
      CollisionsAreWallTiles(g, Bounds(moved.pos), i);
      var c := HitCells(g, Bounds(moved.pos))[i];
      assert IsWall(g, c.x, c.y) && r.pos.y + SIZE.y == c.y as real * TILE_SIZE;
    }
  }

  /** The Y pass of a tick keeps the horizontal velocity and the flags, and
      leaves the player grounded only at rest vertically. */
  lemma ResolveYKeeps(b: Body, dt: real, q: Query)
    ensures var r := ResolveY(b, dt, q);
            r.vel.x == b.vel.x && r.sliding == b.sliding && r.wallDir == b.wallDir &&
            r.wasJumpPressed == b.wasJumpPressed && r.facingRight == b.facingRight &&
            (r.grounded ==> r.vel.y == 0.0)
  {
    ShiftedYKeeps(b, b.pos.y + Travel(b.vel.y, dt), b.pos.y + SIZE.y, q);
  }

  lemma ShiftedYKeeps(b: Body, y: real, prevBottom: real, q: Query)
    ensures var r := ShiftY(b, y, prevBottom, q);
            r.vel.x == b.vel.x && r.sliding == b.sliding && r.wallDir == b.wallDir &&
            r.wasJumpPressed == b.wasJumpPressed && r.facingRight == b.facingRight &&
            (r.grounded ==> r.vel.y == 0.0)
  {
    var moved := b.(grounded := false, pos := b.pos.(y := y));
    YPassLanding(moved, q(Bounds(moved.pos)), prevBottom, q);
  }

  /** A tick of the state machine keeps the flags meaningful, whatever the
      query answers: the wall direction is -1, 0 or 1; sliding needs a wall;
      the jump memory is this tick's key; a grounded player stands still
      vertically; and the horizontal speed is within the cap, except after a
      wall jump, which may reach the wall-jump force. */
  lemma StepInvariants(b: Body, dt: real, input: Input, q: Query)
    ensures var r := Step(b, dt, input, q);
            -1 <= r.wallDir <= 1 &&
            (r.sliding ==> r.wallDir != 0) &&
            r.wasJumpPressed == input.jump &&
            (r.grounded ==> r.vel.y == 0.0) &&
            -WALL_JUMP_FORCE.x <= r.vel.x <= WALL_JUMP_FORCE.x &&
            (!(input.jump && !b.wasJumpPressed) ==> -MOVE_SPEED <= r.vel.x <= MOVE_SPEED)
  {
    var s := Gravity(Jump(Slide(Probe(Horizontal(b, input, dt), q), input), input),
                     input, dt);
    PreCollisionStages(b, dt, input, q);
    ResolveXKeeps(s, dt, q);
    ResolveYKeeps(ResolveX(s, dt, q), dt, q);
  }

  /** Against a map's query, a player grounded after a tick has its bottom
      on the top of a wall tile of that map. */
  lemma StepLandsOnTile(b: Body, dt: real, input: Input, q: Query, g: Grid)
    requires |g| > 0 && Answers(q, g)
    ensures var r := Step(b, dt, input, q);
            r.grounded ==>
              exists c: Cell :: IsWall(g, c.x, c.y) && r.pos.y + SIZE.y == c.y as real * TILE_SIZE
  {
    var s := Gravity(Jump(Slide(Probe(Horizontal(b, input, dt), q), input), input),
                     input, dt);
    ResolveYGrounds(ResolveX(s, dt, q), dt, q, g);
  }

  /** Holding the jump key never fires a second jump: on the tick after one
      with the key down, the jump stage only records the key. */
  lemma HeldJumpDoesNotRefire(b: Body, dt: real, input: Input, q: Query)
    requires input.jump
    ensures var next := Slide(Probe(Horizontal(Step(b, dt, input, q), input, dt), q), input);
            Jump(next, input) == next
  {
    StepInvariants(b, dt, input, q);
  }

  /** A grounded player pressing jump leaves the ground with the jump speed,
      to which only this tick's base gravity is added (no apex, short-hop or
      fall rule applies to that speed while the key is down). */
  lemma GroundedJumpTakesOff(b: Body, dt: real, input: Input, q: Query)
    requires input.jump && !b.wasJumpPressed && b.grounded
    ensures var s := Jump(Slide(Probe(Horizontal(b, input, dt), q), input), input);
            s.vel.y == -JUMP_STRENGTH && !s.grounded &&
            Gravity(s, input, dt).vel.y == -JUMP_STRENGTH + GRAVITY * dt
  {
  }

  /** An airborne player falling along a wall it pushes against slides: the
      fall is clamped to the slide speed and gravity adds nothing. */
  lemma WallSlideClampsFall(b: Body, input: Input, dt: real)
    requires !b.grounded && b.vel.y > 0.0 && !input.jump
    requires (b.wallDir == -1 && input.left) || (b.wallDir == 1 && input.right)
    ensures var s := Slide(b, input);
            s.sliding && s.vel.y == Min(b.vel.y, WALL_SLIDE_SPEED) &&
            Gravity(Jump(s, input), input, dt).vel.y == s.vel.y
  {
  }

  /** Reset forgets motion and leaves the result independent of the motion
      it had; resetting twice is resetting once. */
  lemma ResetIdempotent(b: Body, p: Vec2)
    ensures Reset(Reset(b, p), p) == Reset(b, p)
  {
  }
}
