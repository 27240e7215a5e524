/** class Player: the hitbox, its velocity and the movement flags, updated
    in place once per tick against the map's collision query. Each stage of
    Update changes the fields as Player::update does; its contract ties the
    new state to PlayerPhysics.Step. */
module PlayerEntity {
  import opened Geometry
  import opened Controls
  import opened TileQuery
  import opened TileMap
  import opened PlayerPhysics
  import opened FixedStep

  class Player {
    /** Top-left corner of the 24x32 hitbox. */
    var position: Vec2
    var velocity: Vec2
    var isGrounded: bool
    var isWallSliding: bool
    /** -1 wall on the left, 1 on the right, 0 none. */
    var wallDir: int
    var wasJumpPressed: bool
    var facingRight: bool

    /** The fields as one value. */
    function State(): Body
      reads this
    {
      Body(position, velocity, isGrounded, isWallSliding, wallDir, wasJumpPressed, facingRight)
    }

    /** The hitbox starts at (100, 0), at rest, in the air, facing right.
        Player::Player never sets the jump memory, so its first value is
        whatever the caller's jumpMemory says. */
    constructor (jumpMemory: bool)
      ensures State() == Body(Vec2(100.0, 0.0), Vec2(0.0, 0.0), false, false, 0, jumpMemory, true)
    {
      position := Vec2(100.0, 0.0);
      velocity := Vec2(0.0, 0.0);
      isGrounded := false;
      isWallSliding := false;
      wallDir := 0;
      wasJumpPressed := jumpMemory;
      facingRight := true;
    }

    function GetPosition(): (p: Vec2)
      reads this
      ensures p == State().pos
    {
      position
    }

    function GetVelocity(): (v: Vec2)
      reads this
      ensures v == State().vel
    {
      velocity
    }

    /** The global bounds: the hitbox grown by its 1px outline. */
    function GetBounds(): (r: Rect)
      reads this
      ensures r.x == position.x - OUTLINE && r.y == position.y - OUTLINE
      ensures r.w == SIZE.x + 2.0 * OUTLINE && r.h == SIZE.y + 2.0 * OUTLINE
    {
      Bounds(position)
    }

    /** One tick of the fixed frame length, with the keys sampled for it,
        against the level map: the stages of Player::update in order. */
    method Update(input: Input, level: Map)
      requires level.grid != [] && level.Valid()
      modifies this
      ensures State() == Step(old(State()), FRAME_SECONDS, input, level.query)
    {
      Accelerate(input);
      DetectWalls(level);
      WallSlide(input);
      JumpOrWallJump(input);
      ApplyGravity(input);
      MoveAlongX(level);
      MoveAlongY(level);
      UpdateFacing();
    }

    /** 1. Acceleration or friction, then the speed cap. */
    method Accelerate(input: Input)
      modifies this
      ensures State() == Horizontal(old(State()), input, FRAME_SECONDS)
    {
      velocity := velocity.(x := CapSpeed(Steer(velocity.x, input, FRAME_SECONDS)));
    }

    /** 2. The probes 2px to either side set the wall direction; the right
        one wins. */
    method DetectWalls(level: Map)
      requires level.grid != [] && level.Valid()
      modifies this
      ensures State() == Probe(old(State()), level.query)
    {
      var bounds := GetBounds();
      var leftHits := level.CheckCollision(bounds.MovedX(-PROBE_OFFSET));
      var rightHits := level.CheckCollision(bounds.MovedX(PROBE_OFFSET));
      isWallSliding := false;
      wallDir := 0;
      if leftHits != [] {
        wallDir := -1;
      }
      if rightHits != [] {
        wallDir := 1;
      }
    }

    /** 3. Falling along a wall the player pushes against. */
    method WallSlide(input: Input)
      modifies this
      ensures State() == Slide(old(State()), input)
    {
      if wallDir != 0 && velocity.y > 0.0 && !isGrounded {
        if (wallDir == -1 && input.left) || (wallDir == 1 && input.right) {
          isWallSliding := true;
          if velocity.y > WALL_SLIDE_SPEED {
            velocity := velocity.(y := WALL_SLIDE_SPEED);
          }
        }
      }
    }

    /** 4. Jump on the rising edge of the key, or wall jump. */
    method JumpOrWallJump(input: Input)
      modifies this
      ensures State() == Jump(old(State()), input)
    {
      var jumpJustPressed := input.jump && !wasJumpPressed;
      if jumpJustPressed {
        if isGrounded {
          velocity := velocity.(y := -JUMP_STRENGTH);
          isGrounded := false;
        } else if isWallSliding || (wallDir != 0 && !isGrounded) {
          velocity := Vec2(-wallDir as real * WALL_JUMP_FORCE.x, -WALL_JUMP_FORCE.y);
        }
      }
      wasJumpPressed := input.jump;
    }

    /** 5. This tick's gravity. */
    method ApplyGravity(input: Input)
      modifies this
      ensures State() == Gravity(old(State()), input, FRAME_SECONDS)
    {
      var currentGravity := CurrentGravity(State(), input);
      velocity := velocity.(y := velocity.y + currentGravity * FRAME_SECONDS);
    }

    /** 6a. Move along X and resolve against the walls met there. */
    method MoveAlongX(level: Map)
      requires level.grid != [] && level.Valid()
      modifies this
      ensures State() == ResolveX(old(State()), FRAME_SECONDS, level.query)
    {
      position := position.(x := position.x + velocity.x * FRAME_SECONDS);
      var walls := level.CheckCollision(GetBounds());
      ResolveXAxis(walls);
    }

    /** 6b. Leave the ground, move along Y and resolve against the walls met
        there. */
    method MoveAlongY(level: Map)
      requires level.grid != [] && level.Valid()
      modifies this
      ensures State() == ResolveY(old(State()), FRAME_SECONDS, level.query)
    {
      isGrounded := false;
      var prevBottom := position.y + SIZE.y;
      position := position.(y := position.y + velocity.y * FRAME_SECONDS);
      var walls := level.CheckCollision(GetBounds());
      ResolveYAxis(walls, prevBottom, level);
    }

    /** 7. Face the direction of clear horizontal motion. */
    method UpdateFacing()
      modifies this
      ensures State() == Facing(old(State()))
    {
      if velocity.x > 1.0 {
        facingRight := true;
      } else if velocity.x < -1.0 {
        facingRight := false;
      }
    }

    /** The X pass over the walls the query returned, in order. */
    method ResolveXAxis(walls: seq<Rect>)
      modifies this
      ensures State() == XPass(old(State()), walls)
    {
      ghost var s0 := State();
      for i := 0 to |walls|
        invariant State() == XPass(s0, walls[..i])
      {
        var wall := walls[i];
        var playerBounds := GetBounds();
        var overlapY := Overlap(playerBounds.y, playerBounds.Bottom(), wall.y, wall.Bottom());
        if overlapY >= SEAM_TOLERANCE {
          var playerCenter := position.x + SIZE.x / 2.0;
          var wallCenter := wall.x + wall.w / 2.0;
          if velocity.x > 0.0 {
            if wallCenter > playerCenter {
              position := position.(x := wall.x - SIZE.x);
              velocity := velocity.(x := 0.0);
            }
          } else if velocity.x < 0.0 {
            if wallCenter < playerCenter {
              position := position.(x := wall.x + wall.w);
              velocity := velocity.(x := 0.0);
            }
          }
        }
        assert walls[..i + 1][..i] == walls[..i];
      }
      assert walls[..|walls|] == walls;
    }

    /** The Y pass over the walls the query returned, in order; prevBottom is
        the hitbox's bottom before the move. */
    method ResolveYAxis(walls: seq<Rect>, prevBottom: real, level: Map)
      requires level.grid != [] && level.Valid()
      modifies this
      ensures State() == YPass(old(State()), walls, prevBottom, level.query)
    {
      ghost var s0 := State();
      for i := 0 to |walls|
        invariant State() == YPass(s0, walls[..i], prevBottom, level.query)
      {
        ContactY(walls[i], prevBottom, level);
        assert walls[..i + 1][..i] == walls[..i];
      }
      assert walls[..|walls|] == walls;
    }

    /** The body of the Y pass for one wall. */
    method ContactY(wall: Rect, prevBottom: real, level: Map)
      requires level.grid != [] && level.Valid()
      modifies this
      ensures State() == YContact(old(State()), wall, prevBottom, level.query)
    {
      var playerBounds := GetBounds();
      var overlapX := Overlap(playerBounds.x, playerBounds.Right(), wall.x, wall.Right());
      if overlapX >= SIDE_TOLERANCE {
        if velocity.y > 0.0 {
          if prevBottom <= wall.y + LANDING_TOLERANCE {
            position := position.(y := wall.y - SIZE.y);
            velocity := velocity.(y := 0.0);
            isGrounded := true;
          }
        } else if velocity.y < 0.0 {
          var nudgeLeft := level.CheckCollision(playerBounds.MovedX(-CORNER_MARGIN));
          if nudgeLeft == [] {
            position := position.(x := position.x - CORNER_MARGIN);
          } else {
            var nudgeRight := level.CheckCollision(playerBounds.MovedX(CORNER_MARGIN));
            if nudgeRight == [] {
              position := position.(x := position.x + CORNER_MARGIN);
            } else {
              position := position.(y := wall.y + wall.h);
              velocity := velocity.(y := 0.0);
            }
          }
        }
      }
    }

    /** Centres the hitbox on the position and stops it in the air. */
    method Reset(p: Vec2)
      modifies this
      ensures State() == PlayerPhysics.Reset(old(State()), p)
    {
      position := Vec2(p.x - SIZE.x / 2.0, p.y - SIZE.y / 2.0);
      velocity := Vec2(0.0, 0.0);
      isGrounded := false;
    }
  }
}
