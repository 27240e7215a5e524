/** class Boy: a 30x30 shape, its velocity and the grounded flag, updated
    in place once per tick against the map's collision query; the contract
    of Update ties the new state to BoyPhysics.Step. */
module BoyEntity {
  import opened Geometry
  import opened Controls
  import opened TileQuery
  import opened TileMap
  import opened FixedStep
  import opened BoyPhysics

  class Boy {
    /** Top-left corner of the shape. */
    var position: Vec2
    var velocity: Vec2
    var isGrounded: bool

    function State(): BoyBody
      reads this
    {
      BoyBody(position, velocity, isGrounded)
    }

    /** The shape starts at (100, 0), at rest, in the air. */
    constructor ()
      ensures State() == BoyBody(Vec2(100.0, 0.0), Vec2(0.0, 0.0), false)
    {
      position := Vec2(100.0, 0.0);
      velocity := Vec2(0.0, 0.0);
      isGrounded := false;
    }

    function GetPosition(): (p: Vec2)
      reads this
      ensures p == State().pos
    {
      position
    }

    function GetVelocity(): (v: Vec2)
      reads this
      ensures v == State().vel
    {
      velocity
    }

    /** One tick of the fixed frame length, with the keys sampled for it,
        against the level map. */
    method Update(input: Input, level: Map)
      requires level.grid != [] && level.Valid()
      modifies this
      ensures State() == Step(old(State()), FRAME_SECONDS, input, level.query)
    {
      ApplyIntent(input);
      MoveAlongX(level);
      MoveAlongY(level);
    }

    /** Steering, the jump and gravity. */
    method ApplyIntent(input: Input)
      modifies this
      ensures State() == Intent(old(State()), input, FRAME_SECONDS)
    {
      velocity := velocity.(x := 0.0);
      if input.left {
        velocity := velocity.(x := -MOVE_SPEED);
      }
      if input.right {
        velocity := velocity.(x := MOVE_SPEED);
      }
      if input.jump && isGrounded {
        velocity := velocity.(y := -JUMP_STRENGTH);
        isGrounded := false;
      }
      velocity := velocity.(y := velocity.y + GRAVITY * FRAME_SECONDS);
    }

    /** Move along X, then put the shape flush against each wall met there. */
    method MoveAlongX(level: Map)
      requires level.grid != [] && level.Valid()
      modifies this
      ensures State() == ResolveX(old(State()), FRAME_SECONDS, level.query)
    {
      position := position.(x := position.x + velocity.x * FRAME_SECONDS);
      var walls := level.CheckCollision(BoyBounds(position));
      ResolveXAxis(walls);
    }

    /** The X pass over the walls the query returned, in order. */
    method ResolveXAxis(walls: seq<Rect>)
      modifies this
      ensures State() == XPass(old(State()), walls)
    {
      ghost var s0 := State();
      for i := 0 to |walls|
        invariant State() == XPass(s0, walls[..i])
      {
        var wall := walls[i];
        var bounds := BoyBounds(position);
        var overlapY := Overlap(bounds.y, bounds.Bottom(), wall.y, wall.Bottom());
        if overlapY >= SEAM_TOLERANCE {
          if velocity.x > 0.0 {
            position := position.(x := wall.x - SIZE.x);
          } else if velocity.x < 0.0 {
            position := position.(x := wall.x + wall.w);
          }
        }
        assert walls[..i + 1][..i] == walls[..i];
      }
      assert walls[..|walls|] == walls;
    }

    /** Leave the ground, move along Y, then land on or hit each wall met
        there. */
    method MoveAlongY(level: Map)
      requires level.grid != [] && level.Valid()
      modifies this
      ensures State() == ResolveY(old(State()), FRAME_SECONDS, level.query)
    {
      isGrounded := false;
      position := position.(y := position.y + velocity.y * FRAME_SECONDS);
      var walls := level.CheckCollision(BoyBounds(position));
      ResolveYAxis(walls);
    }

    /** The Y pass over the walls the query returned, in order. */
    method ResolveYAxis(walls: seq<Rect>)
      modifies this
      ensures State() == YPass(old(State()), walls)
    {
      ghost var s0 := State();
      for i := 0 to |walls|
        invariant State() == YPass(s0, walls[..i])
      {
        var wall := walls[i];
        var bounds := BoyBounds(position);
        var overlapX := Overlap(bounds.x, bounds.Right(), wall.x, wall.Right());
        if overlapX >= SIDE_TOLERANCE {
          if velocity.y > 0.0 {
            position := position.(y := wall.y - SIZE.y);
            velocity := velocity.(y := 0.0);
            isGrounded := true;
          } else if velocity.y < 0.0 {
            position := position.(y := wall.y + wall.h);
            velocity := velocity.(y := 0.0);
          }
        }
        assert walls[..i + 1][..i] == walls[..i];
      }
      assert walls[..|walls|] == walls;
    }

    /** Puts the shape exactly at p, at rest, in the air. */
    method Reset(p: Vec2)
      modifies this
      ensures State() == BoyPhysics.Reset(p)
    {
      position := p;
      velocity := Vec2(0.0, 0.0);
      isGrounded := false;
    }
  }
}
