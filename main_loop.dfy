/** The host loop of main.cpp: the launch, the window's events of a frame,
    the fixed-step physics of the boy with the respawn below the map, and the
    camera that follows it. The local variables of main become the Map and
    Boy objects and the values each frame passes on. */
module MainHost {
  import opened Geometry
  import opened Wrappers
  import opened Controls
  import opened TileQuery
  import opened LevelText
  import opened TileMap
  import opened FixedStep
  import opened BoyPhysics
  import opened BoyEntity
  import opened Camera

  /** The window is 1280x720 and the camera keeps the default view's size. */
  const VIEW_SIZE: Vec2 := Vec2(1280.0, 720.0)

  /** One physics tick: the boy's update, then the respawn if it fell off.
      The update survives exactly when it ends at or above the death line,
      and when the start itself is above the death line, so is the boy after
      the tick. */
  function Tick(b: BoyBody, input: Input, q: Query, g: Grid, start: Vec2): (r: BoyBody)
    ensures var s := Step(b, FRAME_SECONDS, input, q);
            (s.pos.y > DeathLine(g) ==> r == BoyPhysics.Reset(start)) &&
            (s.pos.y <= DeathLine(g) ==> r == s)
    ensures start.y <= DeathLine(g) ==> r.pos.y <= DeathLine(g)
  {
    var s := Step(b, FRAME_SECONDS, input, q);
    if s.pos.y > DeathLine(g) then BoyPhysics.Reset(start) else s
  }

  /** n ticks, tick i with the keys polled for it. */
  function Ticks(b: BoyBody, keys: seq<Input>, q: Query, g: Grid, start: Vec2, n: nat): BoyBody {
    if n == 0 then b else Tick(Ticks(b, keys, q, g, start, n - 1), KeysAt(keys, n - 1), q, g, start)
  }

  /** What the event loop of a frame acts on: the boy and whether the window
      is open. */
  datatype Window = Window(boy: BoyBody, open: bool)

  /** One event: Closed closes the window, R respawns the boy. */
  function OnEvent(w: Window, e: Event, start: Vec2): Window {
    match e
    case Closed => w.(open := false)
    case KeyPressed(R) => w.(boy := BoyPhysics.Reset(start))
    case _ => w
  }

  /** The events of a frame in order; a closed window delivers no more. */
  function OnEvents(w: Window, events: seq<Event>, start: Vec2): Window
    decreases |events|
  {
    if events == [] then w
    else
      var p := OnEvents(w, events[..|events| - 1], start);
      if !p.open then p else OnEvent(p, events[|events| - 1], start)
  }

  /** Once the window is closed the rest of the queue changes nothing. */
  lemma {:induction false} ClosedSkipsRest(w: Window, events: seq<Event>, i: nat, start: Vec2)
    requires i <= |events| && !OnEvents(w, events[..i], start).open
    ensures OnEvents(w, events, start) == OnEvents(w, events[..i], start)
    decreases |events|
  {
    if i < |events| {
      var prefix := events[..|events| - 1];
      assert prefix[..i] == events[..i];
      ClosedSkipsRest(w, prefix, i, start);
    } else {
      assert events[..i] == events;
    }
  }

  /** The events of a frame on an open window: it closes exactly when Closed
      is among them; the boy either keeps its state or is at the start at
      rest; an R with no Closed puts it there, and with no R it is kept. */
  lemma {:induction false} EventsEffect(b: BoyBody, events: seq<Event>, start: Vec2)
    ensures var r := OnEvents(Window(b, true), events, start);
            r.open == (Closed !in events) &&
            (r.boy == b || r.boy == BoyPhysics.Reset(start)) &&
            (Closed !in events && KeyPressed(R) in events ==> r.boy == BoyPhysics.Reset(start)) &&
            (KeyPressed(R) !in events ==> r.boy == b)
    decreases |events|
  {
    if events != [] {
      var prefix := events[..|events| - 1];
      var last := events[|events| - 1];
      EventsEffect(b, prefix, start);
      assert events == prefix + [last];
      assert forall e :: e in events <==> e in prefix || e == last;
    }
  }

  /** Creates the map, loads the level file (its success is ignored),
      creates the boy and puts it at the map's start position. */
  method Launch(file: Option<LevelFile>) returns (level: Map, boy: Boy)
    ensures fresh(level) && fresh(boy) && level.Valid()
    ensures file.None? ==> level.grid == [] && level.startPosition == DEFAULT_START
    ensures file.Some? ==> Level(level.grid, level.startPosition) ==
                             ParseLines(file.value.lines, |file.value.lines|, DEFAULT_START)
    ensures boy.State() == BoyPhysics.Reset(level.startPosition)
  {
    level := new Map();
    var loaded := level.LoadFromFile(file);
    boy := new Boy();
    boy.Reset(level.GetStartPosition());
  }

  /** A launched map's start lies above its death line: it is the default
      start or the corner of one of the map's cells. */
  lemma LaunchStartAboveDeathLine(file: Option<LevelFile>, g: Grid, start: Vec2)
    requires file.None? ==> g == [] && start == DEFAULT_START
    requires file.Some? ==> Level(g, start) ==
                              ParseLines(file.value.lines, |file.value.lines|, DEFAULT_START)
    ensures start.y <= DeathLine(g)
  {
    if file.Some? {
      StartOnGrid(file.value.lines, |file.value.lines|, DEFAULT_START);
    }
  }

  /** The event loop of a frame, run while the window hands out events. */
  method PollEvents(boy: Boy, level: Map, events: seq<Event>) returns (open: bool)
    modifies boy
    ensures Window(boy.State(), open) ==
            OnEvents(Window(old(boy.State()), true), events, level.startPosition)
  {
    ghost var w0 := Window(boy.State(), true);
    open := true;
    var i := 0;
    while i < |events| && open
      invariant 0 <= i <= |events|
      invariant Window(boy.State(), open) == OnEvents(w0, events[..i], level.startPosition)
    {
      var e := events[i];
      if e == Closed {
        open := false;
      }
      if e == KeyPressed(R) {
        boy.Reset(level.GetStartPosition());
      }
      assert events[..i + 1][..i] == events[..i];
      i := i + 1;
    }
    if i < |events| {
      ClosedSkipsRest(w0, events, i, level.startPosition);
    } else {
      assert events[..i] == events;
    }
  }

  /** The physics loop: a tick for every whole frame accumulated, each the
      boy's update with the keys polled for it and then the respawn below
      the map. */
  method RunPhysics(boy: Boy, level: Map, pending: nat, keys: seq<Input>) returns (left: nat)
    requires level.grid != [] && level.Valid()
    modifies boy
    ensures left == LeftInclusive(pending)
    ensures boy.State() ==
            Ticks(old(boy.State()), keys, level.query, level.grid, level.startPosition,
                  StepsInclusive(pending))
  {
    ghost var b0 := boy.State();
    var n: nat := 0;
    left := pending;
    while left >= TIME_PER_FRAME
      invariant pending == n * TIME_PER_FRAME + left
      invariant boy.State() == Ticks(b0, keys, level.query, level.grid, level.startPosition, n)
      decreases left
    {
      left := left - TIME_PER_FRAME;
      PhysicsTick(boy, level, keys, b0, n);
      n := n + 1;
    }
    StepsUnique(pending, n, StepsInclusive(pending));
  }

  /** The body of the physics loop: the (n+1)-th tick from b0. */
  method PhysicsTick(boy: Boy, level: Map, keys: seq<Input>, ghost b0: BoyBody, n: nat)
    requires level.grid != [] && level.Valid()
    requires boy.State() == Ticks(b0, keys, level.query, level.grid, level.startPosition, n)
    modifies boy
    ensures boy.State() == Ticks(b0, keys, level.query, level.grid, level.startPosition, n + 1)
  {
    boy.Update(KeysAt(keys, n), level);
    if boy.GetPosition().y > level.Height() + FALL_MARGIN {
      boy.Reset(level.GetStartPosition());
    }
  }

  /** The camera of a frame, centred on the boy's corner as clamped to the
      map. */
  function FollowCamera(level: Map, p: Vec2): (c: Vec2)
    reads level
    ensures level.Width() < VIEW_SIZE.x ==> c.x == level.Width() / 2.0
    ensures VIEW_SIZE.x <= level.Width() ==>
              VIEW_SIZE.x / 2.0 <= c.x <= level.Width() - VIEW_SIZE.x / 2.0
    ensures level.Height() < VIEW_SIZE.y ==> c.y == level.Height() / 2.0
    ensures VIEW_SIZE.y <= level.Height() ==>
              VIEW_SIZE.y / 2.0 <= c.y <= level.Height() - VIEW_SIZE.y / 2.0
  {
    Target(Vec2(level.Width(), level.Height()), VIEW_SIZE, p)
  }

  /** One pass of the game loop of main: the frame's elapsed time joins the
      pending time, the events are handled, the physics ticks run, each with
      the keys polled for it, and the camera follows. */
  method Frame(boy: Boy, level: Map, pending: nat, elapsed: nat, events: seq<Event>, keys: seq<Input>)
    returns (open: bool, left: nat, center: Vec2)
    requires level.grid != [] && level.Valid()
    modifies boy
    ensures open == (Closed !in events)
    ensures left == LeftInclusive(pending + elapsed) && left < TIME_PER_FRAME
    ensures boy.State() ==
            Ticks(OnEvents(Window(old(boy.State()), true), events, level.startPosition).boy,
                  keys, level.query, level.grid, level.startPosition, StepsInclusive(pending + elapsed))
    ensures center == FollowCamera(level, boy.State().pos)
  {
    EventsEffect(boy.State(), events, level.startPosition);
    open := PollEvents(boy, level, events);
    left := RunPhysics(boy, level, pending + elapsed, keys);
    center := FollowCamera(level, boy.GetPosition());
  }

  /** If it starts above the death line, the boy is above it after any
      number of ticks of a frame, whatever keys are held on each. */
  lemma {:induction false} TicksStayAboveDeathLine(b: BoyBody, keys: seq<Input>, q: Query, g: Grid, start: Vec2, n: nat)
    requires b.pos.y <= DeathLine(g) && start.y <= DeathLine(g)
    ensures Ticks(b, keys, q, g, start, n).pos.y <= DeathLine(g)
  {
    if n > 0 {
      TicksStayAboveDeathLine(b, keys, q, g, start, n - 1);
    }
  }
}
