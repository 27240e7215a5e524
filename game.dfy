/** The rules of the Game host as values: the window and debug settings the
    events change, the player's tick with its two respawn triggers, and the
    smoothed camera. */
module GameRules {
  import opened Geometry
  import opened Controls
  import opened TileQuery
  import opened TileMap
  import opened FixedStep
  import opened PlayerPhysics
  import opened Camera

  /** The windowed mode's size; the camera shows half of the window (2x
      zoom), starting at 640x360. */
  const WINDOWED_SIZE: Vec2 := Vec2(1280.0, 720.0)
  const INITIAL_VIEW: Vec2 := Vec2(640.0, 360.0)

  /** Everything Game's methods change: the player, the camera's centre and
      size, the window mode (0 windowed, 1 borderless, 2 fullscreen), the two
      debug toggles and whether the window is open. */
  datatype GameState = GameState(player: Body, center: Vec2, viewSize: Vec2, windowMode: nat,
                                 showHitbox: bool, showFps: bool, open: bool)

  /** The window mode after F4. */
  function NextMode(m: nat): (r: nat)
    ensures r < 3
  {
    (m + 1) % 3
  }

  /** The modes cycle windowed, borderless, fullscreen and back. */
  lemma ModesCycle()
    ensures NextMode(0) == 1 && NextMode(1) == 2 && NextMode(2) == 0
    ensures forall m: nat :: m < 3 ==> NextMode(NextMode(NextMode(m))) == m
  {
  }

  /** The window size a mode is created with: 1280x720 windowed, the
      desktop's size otherwise. */
  function ModeWindowSize(mode: nat, desktop: Vec2): Vec2 {
    if mode == 0 then WINDOWED_SIZE else desktop
  }

  /** F4: the next mode, and the camera sized to half the new window. */
  function NextWindow(s: GameState, desktop: Vec2): (r: GameState)
    ensures r.windowMode == NextMode(s.windowMode)
    ensures r.windowMode == 0 ==> r.viewSize == Vec2(640.0, 360.0)
    ensures r.windowMode != 0 ==> r.viewSize == Vec2(desktop.x / 2.0, desktop.y / 2.0)
    ensures r.player == s.player && r.center == s.center && r.open == s.open
    ensures r.showHitbox == s.showHitbox && r.showFps == s.showFps
  {
    var m := NextMode(s.windowMode);
    var w := ModeWindowSize(m, desktop);
    s.(windowMode := m, viewSize := Vec2(w.x / 2.0, w.y / 2.0))
  }

  /** One event of processEvents. */
  function OnEvent(s: GameState, e: Event, start: Vec2, desktop: Vec2): GameState {
    match e
    case Closed => s.(open := false)
    case Resized(w, h) => s.(viewSize := Vec2(w as real / 2.0, h as real / 2.0))
    case KeyPressed(k) =>
      match k
      case R => s.(player := PlayerPhysics.Reset(s.player, start))
      case F1 => s.(showHitbox := !s.showHitbox)
      case F2 => s.(showFps := !s.showFps)
      case F4 => NextWindow(s, desktop)
      case OtherKey => s
  }

  /** The events in order; a closed window delivers no more. */
  function OnEvents(s: GameState, events: seq<Event>, start: Vec2, desktop: Vec2): GameState
    decreases |events|
  {
    if events == [] then s
    else
      var p := OnEvents(s, events[..|events| - 1], start, desktop);
      if !p.open then p else OnEvent(p, events[|events| - 1], start, desktop)
  }

  /** Once the window is closed the rest of the queue changes nothing. */
  lemma {:induction false} ClosedSkipsRest(s: GameState, events: seq<Event>, i: nat, start: Vec2, desktop: Vec2)
    requires i <= |events| && !OnEvents(s, events[..i], start, desktop).open
    ensures OnEvents(s, events, start, desktop) == OnEvents(s, events[..i], start, desktop)
    decreases |events|
  {
    if i < |events| {
      var prefix := events[..|events| - 1];
      assert prefix[..i] == events[..i];
      ClosedSkipsRest(s, prefix, i, start, desktop);
    } else {
      assert events[..i] == events;
    }
  }

  /** What a batch of events can do: the player is kept or put at the start
      (only by R), the camera centre never moves, the mode stays in range and
      changes only through F4, the view size only through Resized or F4, and
      the window closes only through Closed. */
  lemma {:induction false} EventsEffect(s: GameState, events: seq<Event>, start: Vec2, desktop: Vec2)
    requires s.windowMode < 3
    ensures var r := OnEvents(s, events, start, desktop);
            (r.player == s.player || r.player == PlayerPhysics.Reset(s.player, start)) &&
            (KeyPressed(R) !in events ==> r.player == s.player) &&
            r.center == s.center && r.windowMode < 3 &&
            (KeyPressed(F4) !in events ==> r.windowMode == s.windowMode) &&
            (KeyPressed(F4) !in events && (forall e :: e in events ==> !e.Resized?) ==>
               r.viewSize == s.viewSize) &&
            (Closed !in events ==> r.open == s.open) &&
            (!r.open ==> !s.open || Closed in events)
    decreases |events|
  {
    if events != [] {
      var prefix := events[..|events| - 1];
      var last := events[|events| - 1];
      EventsEffect(s, prefix, start, desktop);
      assert events == prefix + [last];
      assert forall e :: e in events <==> e in prefix || e == last;
    }
  }

  /** Pressing a debug toggle twice restores the setting. */
  lemma TogglesTwiceRestore(s: GameState, start: Vec2, desktop: Vec2)
    requires s.open
    ensures OnEvents(s, [KeyPressed(F1), KeyPressed(F1)], start, desktop) == s
    ensures OnEvents(s, [KeyPressed(F2), KeyPressed(F2)], start, desktop) == s
  {
    var one := [KeyPressed(F1)];
    assert [KeyPressed(F1), KeyPressed(F1)][..1] == one && one[..0] == [];
    var two := [KeyPressed(F2)];
    assert [KeyPressed(F2), KeyPressed(F2)][..1] == two && two[..0] == [];
  }

  /** The player's part of Game::update: the state machine's tick, the
      respawn after falling 200px below the map, then the respawn on
      reaching a finish area. The tick's result survives exactly when it
      neither fell nor finished; otherwise it is put at the start, and a
      respawn is above the death line whenever the start is. */
  function PlayerTick(b: Body, input: Input, q: Query, g: Grid, start: Vec2, areas: seq<Rect>): (r: Body)
    ensures var s := Step(b, FRAME_SECONDS, input, q);
            (s.pos.y > DeathLine(g) || InFinishArea(areas, Bounds(s.pos)) ==>
               r == PlayerPhysics.Reset(s, start)) &&
            (s.pos.y <= DeathLine(g) && !InFinishArea(areas, Bounds(s.pos)) ==> r == s)
    ensures start.y - SIZE.y / 2.0 <= DeathLine(g) ==> r.pos.y <= DeathLine(g)
  {
    var s := Step(b, FRAME_SECONDS, input, q);
    var afterFall := if s.pos.y > DeathLine(g) then PlayerPhysics.Reset(s, start) else s;
    if InFinishArea(areas, Bounds(afterFall.pos)) then PlayerPhysics.Reset(afterFall, start)
    else afterFall
  }

  /** The camera's part of Game::update: each axis moves towards the
      clamped target for the player's position. */
  function CameraTick(center: Vec2, viewSize: Vec2, mapSize: Vec2, p: Vec2): Vec2 {
    var t := Target(mapSize, viewSize, p);
    Vec2(Lerp(center.x, t.x, FRAME_SECONDS), Lerp(center.y, t.y, FRAME_SECONDS))
  }

  /** The camera centre stays where the view shows only the map: once it is
      inside the clamp range of a map at least as large as the view, a tick
      keeps it there. */
  lemma CameraStaysOnMap(center: Vec2, viewSize: Vec2, mapSize: Vec2, p: Vec2)
    requires viewSize.x <= mapSize.x && viewSize.y <= mapSize.y
    requires viewSize.x / 2.0 <= center.x <= mapSize.x - viewSize.x / 2.0
    requires viewSize.y / 2.0 <= center.y <= mapSize.y - viewSize.y / 2.0
    ensures var c := CameraTick(center, viewSize, mapSize, p);
            viewSize.x / 2.0 <= c.x <= mapSize.x - viewSize.x / 2.0 &&
            viewSize.y / 2.0 <= c.y <= mapSize.y - viewSize.y / 2.0
  {
    var t := Target(mapSize, viewSize, p);
    LerpAtFrameStaysBetween(center.x, t.x);
    LerpAtFrameStaysBetween(center.y, t.y);
  }

  /** Game::update: the player, then the camera following its new position. */
  function Advance(s: GameState, input: Input, q: Query, g: Grid, start: Vec2, areas: seq<Rect>,
                   mapSize: Vec2): (r: GameState)
    ensures r.viewSize == s.viewSize && r.windowMode == s.windowMode && r.open == s.open
    ensures r.showHitbox == s.showHitbox && r.showFps == s.showFps
  {
    var p := PlayerTick(s.player, input, q, g, start, areas);
    s.(player := p, center := CameraTick(s.center, s.viewSize, mapSize, p.pos))
  }

  /** The events the window hands out on tick i of a frame's loop. */
  function EventsAt(feed: seq<seq<Event>>, i: nat): seq<Event> {
    if i < |feed| then feed[i] else []
  }

  /** n ticks of Game::run's loop: each the events, then the update with
      the keys polled for that tick. */
  function GameTicks(s: GameState, feed: seq<seq<Event>>, keys: seq<Input>, q: Query, g: Grid,
                     start: Vec2, areas: seq<Rect>, mapSize: Vec2, desktop: Vec2, n: nat): GameState
  {
    if n == 0 then s
    else
      var prev := GameTicks(s, feed, keys, q, g, start, areas, mapSize, desktop, n - 1);
      Advance(OnEvents(prev, EventsAt(feed, n - 1), start, desktop), KeysAt(keys, n - 1), q, g, start,
              areas, mapSize)
  }

  /** The level load's camera: clamped like the target but with no centring
      on a map smaller than the view. */
  function LoadCenter(p: Vec2, viewSize: Vec2, mapSize: Vec2): Vec2 {
    Vec2(Clamp(mapSize.x, viewSize.x, p.x), Clamp(mapSize.y, viewSize.y, p.y))
  }

  /** On a map narrower than the view the load's centre and the update's
      target differ: the load pushes the view's right edge onto the map's,
      the update centres the map. */
  lemma LoadCenterOnNarrowMap(p: Vec2, viewSize: Vec2, mapSize: Vec2)
    requires mapSize.x < viewSize.x
    ensures LoadCenter(p, viewSize, mapSize).x == mapSize.x - viewSize.x / 2.0
    ensures Target(mapSize, viewSize, p).x == mapSize.x / 2.0
    ensures LoadCenter(p, viewSize, mapSize).x < Target(mapSize, viewSize, p).x
  {
  }
}

/** class Game: the window's settings, the camera, the player and the map,
    with the methods of Game.cpp that change them. */
module GameHost {
  import opened Geometry
  import opened Wrappers
  import opened Controls
  import opened TileQuery
  import opened LevelText
  import opened TileMap
  import opened FixedStep
  import opened PlayerPhysics
  import opened PlayerEntity
  import opened Camera
  import opened GameRules

  class Game {
    const player: Player
    const level: Map
    var center: Vec2
    var viewSize: Vec2
    var windowMode: nat
    var showHitbox: bool
    var showFps: bool
    var open: bool

    function State(): GameState
      reads this, player
    {
      GameState(player.State(), center, viewSize, windowMode, showHitbox, showFps, open)
    }

    /** A window opened in windowed mode, the camera at (0, 0) showing
        640x360, a new player and map, and the level loaded; jumpMemory is
        the new player's unset jump memory. */
    constructor (file: Option<LevelFile>, jumpMemory: bool)
      ensures fresh(player) && fresh(level) && level.Valid()
      ensures var initial := Body(Vec2(100.0, 0.0), Vec2(0.0, 0.0), false, false, 0, jumpMemory, true);
              if file.None? then
                State() == GameState(initial, Vec2(0.0, 0.0), INITIAL_VIEW, 0, false, false, true)
              else
                var p := PlayerPhysics.Reset(initial, level.startPosition);
                State() == GameState(p, LoadCenter(p.pos, INITIAL_VIEW, Vec2(level.Width(), level.Height())),
                                     INITIAL_VIEW, 0, false, false, true)
      ensures file.None? ==> level.grid == [] && level.startPosition == DEFAULT_START
      ensures file.Some? ==> Level(level.grid, level.startPosition) ==
                               ParseLines(file.value.lines, |file.value.lines|, DEFAULT_START) &&
                             level.finishAreas == file.value.finishAreas
    {
      player := new Player(jumpMemory);
      level := new Map();
      center := Vec2(0.0, 0.0);
      viewSize := INITIAL_VIEW;
      windowMode := 0;
      showHitbox := false;
      showFps := false;
      open := true;
      new;
      LoadLevel(file);
    }

    /** Loads a level; only a successful load respawns the player and puts
        the camera on it. */
    method LoadLevel(file: Option<LevelFile>)
      requires level.Valid()
      modifies this, player, level
      ensures level.Valid()
      ensures file.None? ==> State() == old(State()) && level.grid == old(level.grid) &&
                             level.startPosition == old(level.startPosition) &&
                             level.finishAreas == old(level.finishAreas)
      ensures file.Some? ==> Level(level.grid, level.startPosition) ==
                               ParseLines(file.value.lines, |file.value.lines|, old(level.startPosition)) &&
                             level.finishAreas == file.value.finishAreas
      ensures file.Some? ==>
                var p := PlayerPhysics.Reset(old(player.State()), level.startPosition);
                State() == old(State()).(player := p,
                                         center := LoadCenter(p.pos, viewSize, Vec2(level.Width(), level.Height())))
    {
      var loaded := level.LoadFromFile(file);
      if loaded {
        player.Reset(level.GetStartPosition());
        var playerPos := player.GetPosition();
        center := LoadCenter(playerPos, viewSize, Vec2(level.Width(), level.Height()));
      }
    }

    /** processEvents: the window's queued events, handled while it is
        open. */
    method ProcessEvents(events: seq<Event>, desktop: Vec2)
      modifies this, player
      ensures State() == OnEvents(old(State()), events, level.startPosition, desktop)
    {
      ghost var s0 := State();
      var i := 0;
      while i < |events| && open
        invariant 0 <= i <= |events|
        invariant State() == OnEvents(s0, events[..i], level.startPosition, desktop)
      {
        HandleEvent(events[i], desktop);
        assert events[..i + 1][..i] == events[..i];
        i := i + 1;
      }
      if i < |events| {
        ClosedSkipsRest(s0, events, i, level.startPosition, desktop);
      } else {
        assert events[..i] == events;
      }
    }

    /** One event: Closed, Resized (2x zoom), or the keys R, F1, F2, F4. */
    method HandleEvent(e: Event, desktop: Vec2)
      modifies this, player
      ensures State() == OnEvent(old(State()), e, level.startPosition, desktop)
    {
      if e == Closed {
        open := false;
      }
      if e.Resized? {
        viewSize := Vec2(e.width as real / 2.0, e.height as real / 2.0);
      }
      if e.KeyPressed? {
        if e.key == R {
          player.Reset(level.GetStartPosition());
        }
        if e.key == F1 {
          showHitbox := !showHitbox;
        }
        if e.key == F2 {
          showFps := !showFps;
        }
        if e.key == F4 {
          CycleWindowMode(desktop);
        }
      }
    }

    /** The next window mode, recreating the window, and the camera sized to
        half of it. */
    method CycleWindowMode(desktop: Vec2)
      modifies this
      ensures State() == NextWindow(old(State()), desktop)
    {
      windowMode := (windowMode + 1) % 3;
      var winSize := if windowMode == 0 then WINDOWED_SIZE else desktop;
      viewSize := Vec2(winSize.x / 2.0, winSize.y / 2.0);
    }

    /** Game::update for one fixed tick: the player, the fall and finish
        respawns, the camera. */
    method Update(input: Input)
      requires level.grid != [] && level.Valid()
      modifies this, player
      ensures State() == Advance(old(State()), input, level.query, level.grid, level.startPosition,
                                 level.finishAreas, Vec2(level.Width(), level.Height()))
    {
      UpdatePlayer(input);
      FollowPlayer();
    }

    /** The camera's rubber band towards the clamped target for the
        player's position. */
    method FollowPlayer()
      modifies this
      ensures State() == old(State()).(center := CameraTick(old(center), viewSize,
                                                            Vec2(level.Width(), level.Height()),
                                                            player.State().pos))
    {
      var playerPos := player.GetPosition();
      var target := Target(Vec2(level.Width(), level.Height()), viewSize, playerPos);
      center := Vec2(center.x + (target.x - center.x) * LERP_SPEED * FRAME_SECONDS,
                     center.y + (target.y - center.y) * LERP_SPEED * FRAME_SECONDS);
    }

    /** The player's tick and its two respawn triggers. */
    method UpdatePlayer(input: Input)
      requires level.grid != [] && level.Valid()
      modifies player
      ensures player.State() ==
              PlayerTick(old(player.State()), input, level.query, level.grid, level.startPosition,
                         level.finishAreas)
    {
      player.Update(input, level);
      if player.GetPosition().y > level.Height() + FALL_MARGIN {
        player.Reset(level.GetStartPosition());
      }
      if level.CheckFinish(player.GetBounds()) {
        player.Reset(level.GetStartPosition());
      }
    }

    /** One pass of Game::run's loop: the elapsed time joins the pending
        time and, while more than a frame is pending, each tick handles the
        window's events and then updates with the keys polled for it. */
    method RunFrame(pending: nat, elapsed: nat, feed: seq<seq<Event>>, keys: seq<Input>, desktop: Vec2)
      returns (left: nat)
      requires level.grid != [] && level.Valid()
      modifies this, player
      ensures left == LeftStrict(pending + elapsed)
      ensures State() == GameTicks(old(State()), feed, keys, level.query, level.grid, level.startPosition,
                                   level.finishAreas, Vec2(level.Width(), level.Height()), desktop,
                                   StepsStrict(pending + elapsed))
    {
      ghost var s0 := State();
      left := pending + elapsed;
      var n: nat := 0;
      while left > TIME_PER_FRAME
        invariant pending + elapsed == n * TIME_PER_FRAME + left
        invariant n > 0 ==> left > 0
        invariant State() == GameTicks(s0, feed, keys, level.query, level.grid, level.startPosition,
                                       level.finishAreas, Vec2(level.Width(), level.Height()), desktop, n)
        decreases left
      {
        left := left - TIME_PER_FRAME;
        GameTick(feed, n, keys, desktop, s0);
        n := n + 1;
      }
      if pending + elapsed > 0 {
        StepsUnique(pending + elapsed - 1, n, StepsStrict(pending + elapsed));
      }
    }

    /** The loop's tick n: its events, then the update. */
    method GameTick(feed: seq<seq<Event>>, n: nat, keys: seq<Input>, desktop: Vec2, ghost s0: GameState)
      requires level.grid != [] && level.Valid()
      requires State() == GameTicks(s0, feed, keys, level.query, level.grid, level.startPosition,
                                    level.finishAreas, Vec2(level.Width(), level.Height()), desktop, n)
      modifies this, player
      ensures State() == GameTicks(s0, feed, keys, level.query, level.grid, level.startPosition,
                                   level.finishAreas, Vec2(level.Width(), level.Height()), desktop, n + 1)
    {
      ProcessEvents(EventsAt(feed, n), desktop);
      Update(KeysAt(keys, n));
    }
  }
}
