/**
 * The runner side-game: a jumping dino, gravity, a ground line, and
 * obstacles that scroll left at a speed that grows every frame. The game
 * record is a `Game` object updated in place by `Jump` and `Tick`; the pure
 * `GameState` functions `Jumped` and `Ticked` say what each does, and
 * `Inv` is the invariant both preserve. The spawn decision (clock and
 * random jitter) and the random obstacle type arrive as the `spawn`
 * argument of `Tick`.
 */
module DinoGame {
  import opened Common

  const CANVAS_WIDTH: real := 300.0
  const GROUND_Y: real := 120.0
  const GRAVITY: real := 0.8
  const JUMP_FORCE: real := -12.0
  const GAME_SPEED_INITIAL: real := 4.0
  const GAME_SPEED_INCREMENT: real := 0.001

  /** Obstacles appear ten units past the right edge of the canvas. */
  const SPAWN_X: real := CANVAS_WIDTH + 10.0

  /** An axis-aligned box, y growing downwards. */
  datatype Box = Box(x: real, y: real, width: real, height: real)

  datatype Dino = Dino(box: Box, velocityY: real, isJumping: bool)

  /** The three obstacle types, in table order. */
  datatype ObstacleKind = Small | Medium | WideLow
  {
    function Width(): (w: real)
      ensures w > 0.0
    {
      match this
      case Small => 15.0
      case Medium => 20.0
      case WideLow => 25.0
    }

    function Height(): (h: real)
      ensures h > 0.0
    {
      match this
      case Small => 25.0
      case Medium => 35.0
      case WideLow => 20.0
    }
  }

  datatype GameState = GameState(
    dino: Dino,
    obstacles: seq<Box>,
    score: int,
    gameSpeed: real,
    isRunning: bool)

  const INITIAL_DINO: Dino := Dino(Box(40.0, GROUND_Y - 30.0, 20.0, 30.0), 0.0, false)

  const INITIAL_STATE: GameState := GameState(INITIAL_DINO, [], 0, GAME_SPEED_INITIAL, true)

  /** `checkCollision`: strict overlap on both axes. */
  predicate CheckCollision(a: Box, b: Box)
  {
    a.x < b.x + b.width && a.x + a.width > b.x &&
    a.y < b.y + b.height && a.y + a.height > b.y
  }

  /** The same answer whichever box comes first. */
  lemma CollisionSymmetric(a: Box, b: Box)
    ensures CheckCollision(a, b) <==> CheckCollision(b, a)
  {
  }

  /** Boxes that only touch along an edge do not collide. */
  lemma TouchingIsNoCollision(a: Box, b: Box)
    requires b.x == a.x + a.width || b.y == a.y + a.height
    ensures !CheckCollision(a, b)
  {
  }

  /** A point strictly inside a box. */
  predicate Inside(b: Box, px: real, py: real)
  {
    b.x < px < b.x + b.width && b.y < py < b.y + b.height
  }

  /** For boxes of positive size the test holds exactly when their interiors share a point. */
  lemma CollisionIsSharedInterior(a: Box, b: Box)
    requires a.width > 0.0 && a.height > 0.0 && b.width > 0.0 && b.height > 0.0
    ensures CheckCollision(a, b) <==> exists px, py :: Inside(a, px, py) && Inside(b, px, py)
  {
    if CheckCollision(a, b) {
      var px := (Max(a.x, b.x) + Min(a.x + a.width, b.x + b.width)) / 2.0;
      var py := (Max(a.y, b.y) + Min(a.y + a.height, b.y + b.height)) / 2.0;
      assert Inside(a, px, py) && Inside(b, px, py);
    }
  }

  /** `spawnObstacle`: a box of the chosen type, just right of the canvas, standing on the ground. */
  function SpawnObstacle(kind: ObstacleKind): (o: Box)
    ensures o.x == SPAWN_X && o.y + o.height == GROUND_Y
    ensures (o.width, o.height) in {(15.0, 25.0), (20.0, 35.0), (25.0, 20.0)}
  {
    Box(SPAWN_X, GROUND_Y - kind.Height(), kind.Width(), kind.Height())
  }

  /** Gravity, then the ground clamp. */
  function Fall(d: Dino): (r: Dino)
    ensures r.box.y <= GROUND_Y - r.box.height
    ensures r.box == d.box.(y := r.box.y)
    ensures d.box.y + d.velocityY + GRAVITY >= GROUND_Y - d.box.height ==>
              r.box.y == GROUND_Y - d.box.height && r.velocityY == 0.0 && !r.isJumping
    ensures d.box.y + d.velocityY + GRAVITY < GROUND_Y - d.box.height ==>
              r.velocityY == d.velocityY + GRAVITY && r.box.y == d.box.y + r.velocityY &&
              r.isJumping == d.isJumping
  {
    var v := d.velocityY + GRAVITY;
    var y := d.box.y + v;
    if y >= GROUND_Y - d.box.height
    then Dino(d.box.(y := GROUND_Y - d.box.height), 0.0, false)
    else Dino(d.box.(y := y), v, d.isJumping)
  }

  function Moved(o: Box, speed: real): Box { o.(x := o.x - speed) }

  /** Every obstacle shifted left by `speed`, in order. */
  function Shifted(obstacles: seq<Box>, speed: real): (r: seq<Box>)
    ensures |r| == |obstacles|
    ensures forall i :: 0 <= i < |r| ==> r[i] == Moved(obstacles[i], speed)
  {
    seq(|obstacles|, i requires 0 <= i < |obstacles| => Moved(obstacles[i], speed))
  }

  /** Still (partly) right of the canvas's left edge. */
  predicate Visible(o: Box) { o.x + o.width > 0.0 }

  /** The `filter` that drops obstacles that have scrolled off, keeping the order. */
  function Survivors(obstacles: seq<Box>): (r: seq<Box>)
    ensures |r| <= |obstacles|
    decreases |obstacles|
  {
    if obstacles == [] then []
    else
      var init := obstacles[..|obstacles| - 1];
      var last := obstacles[|obstacles| - 1];
      Survivors(init) + (if Visible(last) then [last] else [])
  }

  /** The survivors are exactly the visible obstacles. */
  lemma {:induction false} SurvivorsMembers(obstacles: seq<Box>)
    ensures forall o :: o in Survivors(obstacles) <==> o in obstacles && Visible(o)
    decreases |obstacles|
  {
    if obstacles != [] {
      var init := obstacles[..|obstacles| - 1];
      var last := obstacles[|obstacles| - 1];
      assert obstacles == init + [last];
      SurvivorsMembers(init);
    }
  }

  /** Filtering a concatenation filters each part: the survivors keep their relative order. */
  lemma {:induction false} SurvivorsAppend(a: seq<Box>, b: seq<Box>)
    ensures Survivors(a + b) == Survivors(a) + Survivors(b)
    decreases |b|
  {
    if b == [] {
      assert a + b == a;
    } else {
      var init := b[..|b| - 1];
      var last := b[|b| - 1];
      assert (a + b)[..|a + b| - 1] == a + init;
      assert (a + b)[|a + b| - 1] == last;
      SurvivorsAppend(a, init);
    }
  }

  /** Some obstacle overlaps the dino. */
  predicate Hit(dino: Box, obstacles: seq<Box>)
  {
    exists i :: 0 <= i < |obstacles| && CheckCollision(dino, obstacles[i])
  }

  /** One step of the filter loop: the next obstacle moved, tested and kept or dropped. */
  lemma FilterStep(dino: Box, pool: seq<Box>, speed: real, i: nat)
    requires i < |pool|
    ensures Shifted(pool[..i + 1], speed) == Shifted(pool[..i], speed) + [Moved(pool[i], speed)]
    ensures Survivors(Shifted(pool[..i + 1], speed)) ==
            Survivors(Shifted(pool[..i], speed)) + (if Visible(Moved(pool[i], speed)) then [Moved(pool[i], speed)] else [])
    ensures Hit(dino, Shifted(pool[..i + 1], speed)) <==>
            Hit(dino, Shifted(pool[..i], speed)) || CheckCollision(dino, Moved(pool[i], speed))
  {
    var prefix := Shifted(pool[..i], speed);
    var o := Moved(pool[i], speed);
    assert Shifted(pool[..i + 1], speed) == prefix + [o];
    SurvivorsAppend(prefix, [o]);
    assert [o][..0] == [];
    if Hit(dino, prefix + [o]) {
      var j :| 0 <= j < |prefix + [o]| && CheckCollision(dino, (prefix + [o])[j]);
      if j < |prefix| { assert CheckCollision(dino, prefix[j]); }
    }
    if Hit(dino, prefix) {
      var j :| 0 <= j < |prefix| && CheckCollision(dino, prefix[j]);
      assert (prefix + [o])[j] == prefix[j];
    }
    if CheckCollision(dino, o) {
      assert (prefix + [o])[|prefix|] == o;
    }
  }

  /**
   * The body of the `filter` callback run over the list: each obstacle is
   * moved left by `speed`, tested against the dino, and kept if still
   * visible. `hit` reports whether any moved obstacle overlapped the dino.
   */
  method MoveObstacles(pool: seq<Box>, speed: real, dino: Box) returns (kept: seq<Box>, hit: bool)
    ensures kept == Survivors(Shifted(pool, speed))
    ensures hit <==> Hit(dino, Shifted(pool, speed))
  {
    kept := [];
    hit := false;
    var i := 0;
    while i < |pool|
      invariant 0 <= i <= |pool|
      invariant kept == Survivors(Shifted(pool[..i], speed))
      invariant hit <==> Hit(dino, Shifted(pool[..i], speed))
    {
      var o := Moved(pool[i], speed);
      if CheckCollision(dino, o) {
        hit := true;
      }
      FilterStep(dino, pool, speed, i);
      if Visible(o) {
        kept := kept + [o];
      }
      i := i + 1;
    }
    assert pool[..i] == pool;
  }

  /** A dino right of the left edge can only hit obstacles the filter keeps. */
  lemma HitOnlySurvivors(dino: Box, obstacles: seq<Box>)
    requires dino.x >= 0.0
    ensures Hit(dino, obstacles) <==> exists o :: o in Survivors(obstacles) && CheckCollision(dino, o)
  {
    SurvivorsMembers(obstacles);
    if Hit(dino, obstacles) {
      var i :| 0 <= i < |obstacles| && CheckCollision(dino, obstacles[i]);
      assert Visible(obstacles[i]);
      assert obstacles[i] in Survivors(obstacles);
    }
    if o :| o in Survivors(obstacles) && CheckCollision(dino, o) {
      var i :| 0 <= i < |obstacles| && obstacles[i] == o;
      assert CheckCollision(dino, obstacles[i]);
    }
  }

  /** The obstacles after spawning at most one new one at the end of the list. */
  function WithSpawn(obstacles: seq<Box>, spawn: Option<ObstacleKind>): (r: seq<Box>)
    ensures spawn.None? ==> r == obstacles
    ensures spawn.Some? ==> r == obstacles + [SpawnObstacle(spawn.value)]
  {
    match spawn
    case None => obstacles
    case Some(kind) => obstacles + [SpawnObstacle(kind)]
  }

  /** `jump`: an impulse when running on the ground, a full restart when the game is over. */
  function Jumped(g: GameState): (r: GameState)
    ensures g.isRunning && !g.dino.isJumping ==>
              r == g.(dino := g.dino.(velocityY := JUMP_FORCE, isJumping := true))
    ensures g.isRunning && g.dino.isJumping ==> r == g
    ensures !g.isRunning ==> r == INITIAL_STATE
  {
    var g' := if !g.dino.isJumping && g.isRunning
              then g.(dino := g.dino.(velocityY := JUMP_FORCE, isJumping := true))
              else g;
    if !g'.isRunning then INITIAL_STATE else g'
  }

  /** One animation frame of `gameLoop`. */
  function Ticked(g: GameState, spawn: Option<ObstacleKind>): (r: GameState)
    ensures !g.isRunning ==> r == g
    ensures r.isRunning ==> g.isRunning
    ensures g.isRunning ==>
              r.score == g.score + 1 && r.gameSpeed == g.gameSpeed + GAME_SPEED_INCREMENT &&
              r.dino.box.y <= GROUND_Y - r.dino.box.height &&
              |r.obstacles| <= |g.obstacles| + 1 &&
              (forall o :: o in r.obstacles ==> Visible(o)) &&
              (r.isRunning <==> !Hit(r.dino.box, Shifted(WithSpawn(g.obstacles, spawn), g.gameSpeed)))
    ensures g.isRunning ==>
              r.dino == Fall(g.dino) &&
              r.obstacles == Survivors(Shifted(WithSpawn(g.obstacles, spawn), g.gameSpeed))
  {
    if !g.isRunning then g
    else
      var dino := Fall(g.dino);
      var moved := Shifted(WithSpawn(g.obstacles, spawn), g.gameSpeed);
      SurvivorsMembers(moved);
      GameState(dino, Survivors(moved), g.score + 1, g.gameSpeed + GAME_SPEED_INCREMENT, !Hit(dino.box, moved))
  }

  /** The shape of a spawned obstacle: one of the three types, standing on the ground. */
  predicate IsObstacleShape(o: Box)
  {
    o.y + o.height == GROUND_Y &&
    ((o.width == 15.0 && o.height == 25.0) ||
     (o.width == 20.0 && o.height == 35.0) ||
     (o.width == 25.0 && o.height == 20.0))
  }

  /**
   * What holds of the game record between frames: the dino keeps its box
   * size and column and is never below the ground, it is on the ground at
   * rest whenever it is not jumping, obstacles are spawned shapes that have
   * not left the canvas on the left and have not moved right of the spawn
   * column, and the speed has grown by one increment per point scored.
   */
  predicate Inv(g: GameState)
  {
    g.dino.box.x == 40.0 && g.dino.box.width == 20.0 && g.dino.box.height == 30.0 &&
    g.dino.box.y <= GROUND_Y - g.dino.box.height &&
    (!g.dino.isJumping ==> g.dino.box.y == GROUND_Y - g.dino.box.height && g.dino.velocityY == 0.0) &&
    (forall o :: o in g.obstacles ==> Visible(o) && o.x <= SPAWN_X && IsObstacleShape(o)) &&
    g.score >= 0 &&
    g.gameSpeed == GAME_SPEED_INITIAL + (g.score as real) * GAME_SPEED_INCREMENT
  }

  lemma InitialInv()
    ensures Inv(INITIAL_STATE)
  {
  }

  /** An impulse is only ever applied to a dino resting on the ground. */
  lemma JumpOnlyFromGround(g: GameState)
    requires Inv(g) && g.isRunning && Jumped(g) != g
    ensures g.dino.box.y == GROUND_Y - g.dino.box.height && g.dino.velocityY == 0.0
    ensures Jumped(g).dino.velocityY == JUMP_FORCE
  {
  }

  lemma JumpPreservesInv(g: GameState)
    requires Inv(g)
    ensures Inv(Jumped(g))
  {
  }

  lemma TickPreservesInv(g: GameState, spawn: Option<ObstacleKind>)
    requires Inv(g)
    ensures Inv(Ticked(g, spawn))
  {
    if g.isRunning {
      var r := Ticked(g, spawn);
      var pool := WithSpawn(g.obstacles, spawn);
      var moved := Shifted(pool, g.gameSpeed);
      assert r.obstacles == Survivors(moved);
      SurvivorsMembers(moved);
      forall o | o in r.obstacles
        ensures Visible(o) && o.x <= SPAWN_X && IsObstacleShape(o)
      {
        var i :| 0 <= i < |moved| && moved[i] == o;
        assert pool[i] in pool;
        if i < |g.obstacles| {
          assert pool[i] == g.obstacles[i];
        }
      }
      var d := g.dino;
      if !d.isJumping {
        assert d.box.y + d.velocityY + GRAVITY >= GROUND_Y - d.box.height;
      }
    }
  }

  /** A frame never lowers the score or the speed, and the speed never falls below its initial value. */
  lemma TicksMonotone(g: GameState, spawn: Option<ObstacleKind>)
    requires Inv(g)
    ensures Ticked(g, spawn).score >= g.score
    ensures Ticked(g, spawn).gameSpeed >= g.gameSpeed >= GAME_SPEED_INITIAL
  {
  }

  /** The mutable game record the animation loop and the input handlers update in place. */
  class Game {
    var dino: Dino
    var obstacles: seq<Box>
    var score: int
    var gameSpeed: real
    var isRunning: bool

    function State(): GameState
      reads this
    {
      GameState(dino, obstacles, score, gameSpeed, isRunning)
    }

    ghost predicate Valid()
      reads this
    {
      Inv(State())
    }

    /** The record as first created, and as reset whenever the game is opened. */
    constructor ()
      ensures State() == INITIAL_STATE && Valid()
    {
      dino := INITIAL_DINO;
      obstacles := [];
      score := 0;
      gameSpeed := GAME_SPEED_INITIAL;
      isRunning := true;
    }

    method Jump()
      requires Valid()
      modifies this
      ensures State() == Jumped(old(State())) && Valid()
    {
      JumpPreservesInv(State());
      if !dino.isJumping && isRunning {
        dino := dino.(velocityY := JUMP_FORCE, isJumping := true);
      }
      if !isRunning {
        dino := INITIAL_DINO;
        obstacles := [];
        score := 0;
        gameSpeed := GAME_SPEED_INITIAL;
        isRunning := true;
      }
    }

    /** One frame; `spawn` is the obstacle type drawn this frame, if the spawn timer fired. */
    method Tick(spawn: Option<ObstacleKind>)
      requires Valid()
      modifies this
      ensures State() == Ticked(old(State()), spawn) && Valid()
    {
      TickPreservesInv(State(), spawn);
      if !isRunning {
        return;
      }
      ghost var g := State();

      dino := dino.(velocityY := dino.velocityY + GRAVITY);
      dino := dino.(box := dino.box.(y := dino.box.y + dino.velocityY));
      if dino.box.y >= GROUND_Y - dino.box.height {
        dino := dino.(box := dino.box.(y := GROUND_Y - dino.box.height));
        dino := dino.(velocityY := 0.0, isJumping := false);
      }
      assert dino == Fall(g.dino);

      if spawn.Some? {
        obstacles := obstacles + [SpawnObstacle(spawn.value)];
      }
      assert obstacles == WithSpawn(g.obstacles, spawn);

      var kept, hit := MoveObstacles(obstacles, gameSpeed, dino.box);
      if hit {
        isRunning := false;
      }
      obstacles := kept;

      score := score + 1;
      gameSpeed := gameSpeed + GAME_SPEED_INCREMENT;
    }
  }
}
