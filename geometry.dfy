/** Plane geometry shared by the tile grid and the two entities: SFML's
    sf::Vector2f and sf::FloatRect over exact reals, plus the integer cast
    the collision query uses. */
module Geometry {

  /** A 2D vector (position or velocity), as sf::Vector2f. */
  datatype Vec2 = Vec2(x: real, y: real)

  /** An axis-aligned rectangle given by its top-left corner and its size,
      as sf::FloatRect. */
  datatype Rect = Rect(x: real, y: real, w: real, h: real) {
    function Right(): real { x + w }
    function Bottom(): real { y + h }

    /** The same rectangle moved horizontally by dx (a probe box). */
    function MovedX(dx: real): (r: Rect)
      ensures r.y == y && r.w == w && r.h == h && r.x - x == dx
    {
      Rect(x + dx, y, w, h)
    }
  }

  /** The distance covered in dt at speed v. */
  function Travel(v: real, dt: real): real { v * dt }

  function Min(a: real, b: real): real { if b < a then b else a }
  function Max(a: real, b: real): real { if a < b then b else a }

  /** Length of the common part of the intervals [a0, a1] and [b0, b1];
      negative when they are apart. */
  function Overlap(a0: real, a1: real, b0: real, b1: real): (r: real)
    ensures r <= a1 - a0 && r <= b1 - b0
  {
    Min(a1, b1) - Max(a0, b0)
  }

  /** C++ static_cast<int> of a floating value: truncation toward zero,
      which differs from the floor for negative non-integers. */
  function Trunc(r: real): (n: int)
    ensures r >= 0.0 ==> 0 <= n && n as real <= r < n as real + 1.0
    ensures r < 0.0 ==> n <= 0 && n as real - 1.0 < r <= n as real
  {
    if r >= 0.0 then r.Floor else -((-r).Floor)
  }

  /** Strict intersection of two rectangles with positive common area, as
      sf::FloatRect::findIntersection reports it. */
  predicate Intersects(a: Rect, b: Rect) {
    Max(a.x, b.x) < Min(a.Right(), b.Right()) &&
    Max(a.y, b.y) < Min(a.Bottom(), b.Bottom())
  }
}

/** The conventional optional value. */
module Wrappers {
  datatype Option<+T> = None | Some(value: T)
}

/** What the core receives from the outside world each tick or frame, in
    place of keyboard polling and the window's event queue. */
module Controls {

  /** The keyboard state sampled for one tick: Left/A, Right/D, Space/W. */
  datatype Input = Input(left: bool, right: bool, jump: bool)

  /** The key state each update of a frame polls: keys[i] on tick i, and no
      key held on a tick past the end of the recording. */
  function KeysAt(keys: seq<Input>, i: nat): Input {
    if i < |keys| then keys[i] else Input(false, false, false)
  }

  /** The keys the hosts react to. */
  datatype Key = R | F1 | F2 | F4 | OtherKey

  /** A window event, as sf::Event. */
  datatype Event = Closed | Resized(width: nat, height: nat) | KeyPressed(key: Key)
}
