/** The older entity's kinematics (Boy::update) as a pure function: the
    horizontal velocity is set outright from the keys, the jump fires
    whenever the key is held on the ground, gravity is constant, and the same
    tile query drives an X pass that never stops the motion and a Y pass that
    lands or hits the ceiling. */
module BoyPhysics {
  import opened Geometry
  import opened Controls
  import opened TileQuery
  import opened FixedStep

  // Tuning, fixed when the boy is constructed.
  const MOVE_SPEED: real := 400.0
  const GRAVITY: real := 1500.0
  const JUMP_STRENGTH: real := 600.0
  /** The shape is 30x30 without outline, so its global bounds are the
      shape itself. */
  const SIZE: Vec2 := Vec2(30.0, 30.0)
  const SEAM_TOLERANCE: real := 5.0
  const SIDE_TOLERANCE: real := 2.0

  /** The whole state of a Boy: shape position, velocity, grounded. */
  datatype BoyBody = BoyBody(pos: Vec2, vel: Vec2, grounded: bool)

  function BoyBounds(pos: Vec2): (r: Rect)
    ensures r.x == pos.x && r.y == pos.y && r.Right() == pos.x + SIZE.x && r.Bottom() == pos.y + SIZE.y
  {
    Rect(pos.x, pos.y, SIZE.x, SIZE.y)
  }

  /** Zero, then -400 for left, then +400 for right: right wins. */
  function SteerVelocity(input: Input): (vx: real)
    ensures vx == -MOVE_SPEED || vx == 0.0 || vx == MOVE_SPEED
    ensures vx == MOVE_SPEED <==> input.right
    ensures vx == -MOVE_SPEED <==> input.left && !input.right
    ensures vx == 0.0 <==> !input.left && !input.right
  {
    if input.right then MOVE_SPEED else if input.left then -MOVE_SPEED else 0.0
  }

  /** Level-triggered: fires on every tick the key is held on the ground. */
  function Jump(b: BoyBody, input: Input): (r: BoyBody)
    ensures input.jump && b.grounded ==> r == b.(vel := b.vel.(y := -JUMP_STRENGTH), grounded := false)
    ensures !(input.jump && b.grounded) ==> r == b
  {
    if input.jump && b.grounded then b.(vel := b.vel.(y := -JUMP_STRENGTH), grounded := false) else b
  }

  /** The stages before the collision passes. */
  function Intent(b: BoyBody, input: Input, dt: real): BoyBody {
    var steered := b.(vel := b.vel.(x := SteerVelocity(input)));
    var jumped := Jump(steered, input);
    jumped.(vel := jumped.vel.(y := jumped.vel.y + GRAVITY * dt))
  }

  /** A wall the X pass acts on: it overlaps the box by at least 5px
      vertically and the box is moving horizontally. */
  predicate XSnaps(b: BoyBody, wall: Rect) {
    Overlap(b.pos.y, b.pos.y + SIZE.y, wall.y, wall.Bottom()) >= SEAM_TOLERANCE && b.vel.x != 0.0
  }

  /** One wall of the X pass: a seam contact is skipped; otherwise the box is
      put flush against the wall on the side of travel, wherever the wall
      is, and the velocity is kept. */
  function XContact(b: BoyBody, wall: Rect): (r: BoyBody)
    ensures r.vel == b.vel && r.grounded == b.grounded && r.pos.y == b.pos.y
    ensures !XSnaps(b, wall) ==> r == b
    ensures XSnaps(b, wall) && b.vel.x > 0.0 ==> r.pos.x + SIZE.x == wall.x
    ensures XSnaps(b, wall) && b.vel.x < 0.0 ==> r.pos.x == wall.Right()
  {
    var bounds := BoyBounds(b.pos);
    var overlapY := Overlap(bounds.y, bounds.Bottom(), wall.y, wall.Bottom());
    if overlapY < SEAM_TOLERANCE then b
    else if b.vel.x > 0.0 then b.(pos := b.pos.(x := wall.x - SIZE.x))
    else if b.vel.x < 0.0 then b.(pos := b.pos.(x := wall.x + wall.w))
    else b
  }

  function XPass(b: BoyBody, walls: seq<Rect>): BoyBody
    decreases |walls|
  {
    if walls == [] then b else XContact(XPass(b, walls[..|walls| - 1]), walls[|walls| - 1])
  }

  function ResolveX(b: BoyBody, dt: real, q: Query): BoyBody
  {
    ShiftX(b, b.pos.x + Travel(b.vel.x, dt), q)
  }

  /** The X pass once the shape's left edge has moved to x. */
  function ShiftX(b: BoyBody, x: real, q: Query): BoyBody
  {
    var moved := b.(pos := b.pos.(x := x));
    XPass(moved, q(BoyBounds(moved.pos)))
  }

  /** One wall of the Y pass: a side contact is skipped; a fall lands on the
      wall's top, a rise stops at its bottom. */
  function YContact(b: BoyBody, wall: Rect): (r: BoyBody)
    ensures r.vel.x == b.vel.x && r.pos.x == b.pos.x
    ensures b.vel.y == 0.0 ==> r == b
    ensures r != b ==> r.vel.y == 0.0 &&
                       Overlap(b.pos.x, b.pos.x + SIZE.x, wall.x, wall.Right()) >= SIDE_TOLERANCE
    ensures r != b && b.vel.y > 0.0 ==> r.pos.y + SIZE.y == wall.y && r.grounded
    ensures r != b && b.vel.y < 0.0 ==> r.pos.y == wall.Bottom() && r.grounded == b.grounded
    ensures Overlap(b.pos.x, b.pos.x + SIZE.x, wall.x, wall.Right()) >= SIDE_TOLERANCE && b.vel.y > 0.0 ==>
              r == b.(pos := b.pos.(y := wall.y - SIZE.y), vel := b.vel.(y := 0.0), grounded := true)
    ensures Overlap(b.pos.x, b.pos.x + SIZE.x, wall.x, wall.Right()) >= SIDE_TOLERANCE && b.vel.y < 0.0 ==>
              r == b.(pos := b.pos.(y := wall.Bottom()), vel := b.vel.(y := 0.0))
    ensures r != b <==> Overlap(b.pos.x, b.pos.x + SIZE.x, wall.x, wall.Right()) >= SIDE_TOLERANCE && b.vel.y != 0.0
  {
    var bounds := BoyBounds(b.pos);
    var overlapX := Overlap(bounds.x, bounds.Right(), wall.x, wall.Right());
    if overlapX < SIDE_TOLERANCE then b
    else if b.vel.y > 0.0 then
      b.(pos := b.pos.(y := wall.y - SIZE.y), vel := b.vel.(y := 0.0), grounded := true)
    else if b.vel.y < 0.0 then
      b.(pos := b.pos.(y := wall.y + wall.h), vel := b.vel.(y := 0.0))
    else b
  }

  function YPass(b: BoyBody, walls: seq<Rect>): BoyBody
    decreases |walls|
  {
    if walls == [] then b else YContact(YPass(b, walls[..|walls| - 1]), walls[|walls| - 1])
  }

  function ResolveY(b: BoyBody, dt: real, q: Query): BoyBody
  {
    ShiftY(b, b.pos.y + Travel(b.vel.y, dt), q)
  }

  /** The Y pass once the boy has left the ground and its top edge has
      moved to y. */
  function ShiftY(b: BoyBody, y: real, q: Query): BoyBody
  {
    var moved := b.(grounded := false, pos := b.pos.(y := y));
    YPass(moved, q(BoyBounds(moved.pos)))
  }

  function Step(b: BoyBody, dt: real, input: Input, q: Query): BoyBody
  {
    ResolveY(ResolveX(Intent(b, input, dt), dt, q), dt, q)
  }

  /** Boy::reset: the shape exactly at p, at rest, in the air. */
  function Reset(p: Vec2): (r: BoyBody)
    ensures r.pos == p && r.vel == Vec2(0.0, 0.0) && !r.grounded
  {
    BoyBody(p, Vec2(0.0, 0.0), false)
  }

  // ---------------------------------------------------------------------

  /** The X pass never touches the velocity or the vertical position; the
      horizontal position it leaves is the snap of the last wall that
      qualifies, or the one it had when none does, since each snap depends
      only on the wall. */
  lemma {:induction false} XPassLastSnapWins(b: BoyBody, walls: seq<Rect>)
    ensures var r := XPass(b, walls);
            r.vel == b.vel && r.grounded == b.grounded && r.pos.y == b.pos.y &&
            ((forall j :: 0 <= j < |walls| ==> !XSnaps(b, walls[j])) ==> r == b) &&
            ((exists j :: 0 <= j < |walls| && XSnaps(b, walls[j])) ==>
               exists i :: 0 <= i < |walls| && XSnaps(b, walls[i]) && r == XContact(b, walls[i]) &&
                           forall j :: i < j < |walls| ==> !XSnaps(b, walls[j]))
    decreases |walls|
  {
    if walls != [] {
      var prefix := walls[..|walls| - 1];
      var last := walls[|walls| - 1];
      XPassLastSnapWins(b, prefix);
      var p := XPass(b, prefix);
      XContactIgnoresX(b, p.pos.x, last);
      assert p == b.(pos := b.pos.(x := p.pos.x));
      assert forall j :: 0 <= j < |prefix| ==> prefix[j] == walls[j];
      if !XSnaps(b, last) && exists j :: 0 <= j < |walls| && XSnaps(b, walls[j]) {
        var i :| 0 <= i < |prefix| && XSnaps(b, prefix[i]) && p == XContact(b, prefix[i]) &&
                 forall j :: i < j < |prefix| ==> !XSnaps(b, prefix[j]);
        assert forall j :: i < j < |walls| ==> !XSnaps(b, walls[j]) by {
          forall j | i < j < |walls|
            ensures !XSnaps(b, walls[j])
          {
            if j < |prefix| {
              assert prefix[j] == walls[j];
            }
          }
        }
      }
    }
  }

  /** Whether a wall acts, and where it puts the box, do not depend on the
      box's horizontal position. */
  lemma XContactIgnoresX(b: BoyBody, x: real, wall: Rect)
    ensures var p := b.(pos := b.pos.(x := x));
            XSnaps(p, wall) == XSnaps(b, wall) &&
            XContact(p, wall) == (if XSnaps(b, wall) then XContact(b, wall) else p)
  {
  }

  /** The Y pass acts on at most one wall, the first that qualifies: its
      snap zeroes the vertical velocity and no later wall matches. */
  lemma {:induction false} YPassFirstSnapWins(b: BoyBody, walls: seq<Rect>)
    ensures var r := YPass(b, walls);
            r == b ||
            exists i :: 0 <= i < |walls| && YContact(b, walls[i]) != b && r == YContact(b, walls[i]) &&
                        forall j :: 0 <= j < i ==> YContact(b, walls[j]) == b
    ensures YPass(b, walls) == b <==> forall j :: 0 <= j < |walls| ==> YContact(b, walls[j]) == b
    decreases |walls|
  {
    if walls != [] {
      var prefix := walls[..|walls| - 1];
      YPassFirstSnapWins(b, prefix);
      assert forall j :: 0 <= j < |prefix| ==> prefix[j] == walls[j];
      if YPass(b, prefix) != b {
        var i :| 0 <= i < |prefix| && YContact(b, prefix[i]) != b && YPass(b, prefix) == YContact(b, prefix[i]) &&
                 forall j :: 0 <= j < i ==> YContact(b, prefix[j]) == b;
        assert prefix[i] == walls[i];
      }
    }
  }

  /** A tick leaves the horizontal velocity exactly as the keys set it, and
      a grounded boy at rest vertically; against a map's query, a grounded
      boy has its bottom on a wall tile's top. */
  lemma StepFacts(b: BoyBody, dt: real, input: Input, q: Query, g: Grid)
    requires |g| > 0 && Answers(q, g)
    ensures var r := Step(b, dt, input, q);
            r.vel.x == SteerVelocity(input) &&
            (r.grounded ==>
               r.vel.y == 0.0 &&
               exists c: Cell :: IsWall(g, c.x, c.y) && r.pos.y + SIZE.y == c.y as real * TILE_SIZE)
  {
    var s := Intent(b, input, dt);
    ResolveXKeepsVelocity(s, dt, q);
    ResolveYGrounds(ResolveX(s, dt, q), dt, q, g);
  }

  lemma ResolveXKeepsVelocity(b: BoyBody, dt: real, q: Query)
    ensures ResolveX(b, dt, q).vel == b.vel
  {
    ShiftedXPass(b, b.pos.x + Travel(b.vel.x, dt), q(BoyBounds(b.pos.(x := b.pos.x + Travel(b.vel.x, dt)))));
  }

  lemma ShiftedXPass(b: BoyBody, x: real, walls: seq<Rect>)
    ensures XPass(b.(pos := b.pos.(x := x)), walls).vel == b.vel
  {
    XPassLastSnapWins(b.(pos := b.pos.(x := x)), walls);
  }

  lemma ResolveYGrounds(b: BoyBody, dt: real, q: Query, g: Grid)
    requires |g| > 0 && Answers(q, g)
    ensures var r := ResolveY(b, dt, q);
            r.vel.x == b.vel.x &&
            (r.grounded ==>
               r.vel.y == 0.0 &&
               exists c: Cell :: IsWall(g, c.x, c.y) && r.pos.y + SIZE.y == c.y as real * TILE_SIZE)
  {
    ShiftedYPass(b, b.pos.y + Travel(b.vel.y, dt), q, g);
  }

  lemma ShiftedYPass(b: BoyBody, y: real, q: Query, g: Grid)
    requires |g| > 0 && Answers(q, g)
    ensures var r := ShiftY(b, y, q);
            r.vel.x == b.vel.x &&
            (r.grounded ==>
               r.vel.y == 0.0 &&
               exists c: Cell :: IsWall(g, c.x, c.y) && r.pos.y + SIZE.y == c.y as real * TILE_SIZE)
  {
    var moved := b.(grounded := false, pos := b.pos.(y := y));
    var walls := q(BoyBounds(moved.pos));
    assert walls == Collisions(g, BoyBounds(moved.pos));
    YPassFirstSnapWins(moved, walls);
    var r := YPass(moved, walls);
    if r.grounded {
      var i :| 0 <= i < |walls| && YContact(moved, walls[i]) != moved && r == YContact(moved, walls[i]) &&
               forall j :: 0 <= j < i ==> YContact(moved, walls[j]) == moved;
      CollisionsAreWallTiles(g, BoyBounds(moved.pos), i);
      var c := HitCells(g, BoyBounds(moved.pos))[i];
      assert IsWall(g, c.x, c.y) && r.pos.y + SIZE.y == c.y as real * TILE_SIZE;
    }
  }

  /** Holding the key on the ground jumps on every such tick, whatever came
      before. */
  lemma JumpIsLevelTriggered(b1: BoyBody, b2: BoyBody, input: Input, dt: real)
    requires input.jump && b1.grounded && b2.grounded
    ensures Intent(b1, input, dt).vel.y == Intent(b2, input, dt).vel.y == -JUMP_STRENGTH + GRAVITY * dt
    ensures !Intent(b1, input, dt).grounded
  {
  }

  /** Reset forgets the state it is applied to, so applying it twice is
      applying it once. */
  lemma ResetIdempotent(p: Vec2)
    ensures Reset(Reset(p).pos) == Reset(p)
  {
  }
}
