/**
 * The rocket mini-game: its one mutable state record and the helpers that
 * change it in small steps (firing a laser, spawning and exploding an
 * asteroid, losing the rocket, bringing in the boss, the run clock), plus
 * the clock's on-screen text.
 *
 * `Math.random()` results, `Math.cos`/`Math.sin` and the wall clock are
 * parameters: a random value is a `Unit`, the pair (cos a, sin a) is
 * `circle(a)`, and a clock reading is an `int` of milliseconds.
 */
module RocketGame {

  import opened Wrappers
  import opened Decimal

  /** Asteroids to destroy before the boss warning. */
  const BOSS_THRESHOLD: int := 10
  /** The boss's hit points on arrival. */
  const BOSS_HP: int := 50
  /** Lives at the start of a run. */
  const PLAYER_LIVES: int := 3

  const LASER_SPEED: real := 16.0
  /** Distance from the rocket's centre to its nose, where lasers appear. */
  const NOSE_OFFSET: real := 18.0
  /** Frames a new laser lives. */
  const LASER_LIFE: int := 60
  /** Frames the boss warning lasts. */
  const BOSS_WARNING_FRAMES: int := 180
  /** Frames before a lost rocket may come back. */
  const RESPAWN_FRAMES: int := 90
  /** Screen-shake intensity when the rocket is hit. */
  const HIT_SHAKE: real := 15.0
  /** How far outside the canvas an asteroid appears. */
  const SPAWN_MARGIN: real := 40.0
  /** Frames an explosion particle may live at most. */
  const PARTICLE_MAX_LIFE: real := 60.0
  /** JavaScript's `Math.PI`. */
  const PI: real := 3.141592653589793

  /** The explosion palette. */
  const COLORS: seq<string> := ["#ef4444", "#f97316", "#fbbf24", "white", "#a78bfa", "#34d399"]

  /** A value `Math.random()` returns: at least 0 and below 1. */
  type Unit = r: real | 0.0 <= r < 1.0

  /** A point, a velocity or a direction. */
  datatype Vec = Vec(x: real, y: real)

  datatype Laser = Laser(x: real, y: real, vx: real, vy: real, life: int)

  datatype Asteroid = Asteroid(
    x: real, y: real, vx: real, vy: real,
    radius: real, rotation: real, rotSpeed: real,
    shape: seq<Vec>,
    hp: int, maxHp: int, crackSeed: int)

  datatype Particle = Particle(
    x: real, y: real, vx: real, vy: real,
    life: real, maxLife: real, size: real, color: string)

  datatype Boss = Boss(
    x: real, y: real, targetY: real,
    hp: int, maxHp: int,
    phase: string,
    moveT: real, shootTimer: real, bobT: real, lightT: real,
    bossPhase: int, phaseFlash: real, asteroidTimer: real)

  /** `gamePhase`: "normal", "warning" or "boss". */
  datatype GamePhase = Normal | Warning | BossFight

  /** The `Math.random()` results one asteroid spawn uses, named by what each decides. */
  datatype AsteroidDraw = AsteroidDraw(
    edge: Unit,      // which canvas edge
    speed: Unit,     // inward speed
    along: Unit,     // position along the edge
    drift: Unit,     // sideways velocity
    radius: Unit,
    rotation: Unit,
    spin: Unit,
    points: Unit,    // number of outline vertices
    crack: Unit)     // crack pattern

  /** The `Math.random()` results one explosion particle uses. */
  datatype ParticleDraw = ParticleDraw(angle: Unit, speed: Unit, life: Unit, size: Unit, color: Unit)

  // ---------------------------------------------------------------------
  // Asteroid outlines and spawning
  // ---------------------------------------------------------------------

  function Scale(v: Vec, k: real): Vec {
    Vec(v.x * k, v.y * k)
  }

  /** `Math.floor(r * n)` for a random `r`: a uniform choice among `0 .. n - 1`. */
  function Pick(r: Unit, n: nat): (k: int)
    requires n > 0
    ensures 0 <= k < n
  {
    BelowTimes(r, n as real);
    (r * n as real).Floor
  }

  lemma BelowTimes(r: real, n: real)
    requires 0.0 <= r < 1.0 && n > 0.0
    ensures 0.0 <= r * n < n
  {
  }

  /** The angle of vertex `i` of a `points`-gon: `i / points` of a full turn. */
  function VertexAngle(i: int, points: int): real
    requires points > 0
  {
    (i as real / points as real) * PI * 2.0
  }

  /** `generateShape(radius, points)`: the regular `points`-gon of the given radius. */
  method GenerateShape(radius: real, points: int, circle: real -> Vec) returns (verts: seq<Vec>)
    ensures |verts| == if points > 0 then points else 0
    ensures forall i :: 0 <= i < |verts| ==> verts[i] == Scale(circle(VertexAngle(i, points)), radius)
  {
    verts := [];
    var i := 0;
    while i < points
      invariant 0 <= i && |verts| == i
      invariant points > 0 ==> i <= points
      invariant points <= 0 ==> i == 0
      invariant forall j :: 0 <= j < i ==> verts[j] == Scale(circle(VertexAngle(j, points)), radius)
    {
      verts := verts + [Scale(circle(VertexAngle(i, points)), radius)];
      i := i + 1;
    }
  }

  /** Hit points by size: 3 above radius 28, 2 above radius 20, else 1. */
  function HitPoints(radius: real): (hp: int)
    ensures 1 <= hp <= 3
    ensures hp == 3 <==> radius > 28.0
    ensures hp == 2 <==> 20.0 < radius <= 28.0
  {
    if radius > 28.0 then 3 else if radius > 20.0 then 2 else 1
  }

  /** A bigger asteroid never has fewer hit points. */
  lemma HitPointsMonotone(r1: real, r2: real)
    requires r1 <= r2
    ensures HitPoints(r1) <= HitPoints(r2)
  {
  }

  function SpawnRadius(d: AsteroidDraw): real {
    15.0 + d.radius * 25.0
  }

  function ShapePoints(d: AsteroidDraw): int {
    5 + Pick(d.points, 4)
  }

  /**
   * Just outside one edge of a `w` by `h` canvas and heading in: from the
   * top moving down, from the right moving left, from the bottom moving
   * up, or from the left moving right.
   */
  predicate EntersFromEdge(a: Asteroid, w: real, h: real) {
    || (a.y == -SPAWN_MARGIN && a.vy > 0.0)
    || (a.x == w + SPAWN_MARGIN && a.vx < 0.0)
    || (a.y == h + SPAWN_MARGIN && a.vy < 0.0)
    || (a.x == -SPAWN_MARGIN && a.vx > 0.0)
  }

  /** What the game keeps true of every asteroid it holds. */
  predicate WellFormedAsteroid(a: Asteroid) {
    && 1 <= a.hp <= a.maxHp <= 3
    && 0 <= a.crackSeed <= 3
  }

  /** The asteroid `spawnAsteroid` pushes, given its outline. */
  function NewAsteroid(w: real, h: real, d: AsteroidDraw, shape: seq<Vec>): (a: Asteroid)
    ensures 15.0 <= a.radius < 40.0
    ensures a.hp == a.maxHp == HitPoints(a.radius)
    ensures 0 <= a.crackSeed <= 3
    ensures WellFormedAsteroid(a)
    ensures EntersFromEdge(a, w, h)
    ensures a.shape == shape
  {
    var edge := Pick(d.edge, 4);
    var speed := 0.5 + d.speed * 1.5;
    var drift := (d.drift - 0.5) * 2.0;
    var pos :=
      if edge == 0 then Vec(d.along * w, -SPAWN_MARGIN)
      else if edge == 1 then Vec(w + SPAWN_MARGIN, d.along * h)
      else if edge == 2 then Vec(d.along * w, h + SPAWN_MARGIN)
      else Vec(-SPAWN_MARGIN, d.along * h);
    var vel :=
      if edge == 0 then Vec(drift, speed)
      else if edge == 1 then Vec(-speed, drift)
      else if edge == 2 then Vec(drift, -speed)
      else Vec(speed, drift);
    var radius := SpawnRadius(d);
    Asteroid(pos.x, pos.y, vel.x, vel.y, radius,
             d.rotation * PI * 2.0, (d.spin - 0.5) * 0.03,
             shape, HitPoints(radius), HitPoints(radius), Pick(d.crack, 4))
  }

  /** Every radius a spawn can draw gets the hit points of its tier. */
  lemma SpawnHitPoints(w: real, h: real, d: AsteroidDraw, shape: seq<Vec>)
    ensures var a := NewAsteroid(w, h, d, shape);
      (d.radius > 0.52 ==> a.hp == 3) &&
      (0.2 < d.radius <= 0.52 ==> a.hp == 2) &&
      (d.radius <= 0.2 ==> a.hp == 1)
  {
  }

  // ---------------------------------------------------------------------
  // Explosions
  // ---------------------------------------------------------------------

  /** Particle `p` of a `count`-particle burst at (x, y). */
  function BurstParticle(x: real, y: real, p: int, count: int, scale: real, d: ParticleDraw, circle: real -> Vec): (q: Particle)
    requires count > 0
    ensures q.x == x && q.y == y
    ensures q.maxLife == PARTICLE_MAX_LIFE && 25.0 <= q.life < q.maxLife
    ensures q.color in COLORS
  {
    var angle := (p as real / count as real) * PI * 2.0 + d.angle * 0.5;
    var spd := 1.0 + d.speed * 7.0 * scale;
    var dir := circle(angle);
    Particle(x, y, dir.x * spd, dir.y * spd,
             25.0 + d.life * 35.0, PARTICLE_MAX_LIFE, (1.0 + d.size * 5.0) * scale,
             COLORS[Pick(d.color, |COLORS|)])
  }

  /** What every particle the game holds satisfies. */
  predicate WellFormedParticle(q: Particle) {
    q.maxLife == PARTICLE_MAX_LIFE && 25.0 <= q.life < q.maxLife && q.color in COLORS
  }

  /** The number of particles a burst of `count` adds. */
  function BurstSize(count: int): nat {
    if count > 0 then count else 0
  }

  // ---------------------------------------------------------------------
  // Removing one element: Array.prototype.splice(idx, 1)
  // ---------------------------------------------------------------------

  /** The start index `splice` uses: a negative index counts from the end, and both are clamped. */
  function SpliceStart(len: nat, idx: int): (k: int)
    ensures 0 <= k <= len
    ensures 0 <= idx <= len ==> k == idx
    ensures idx < 0 && len + idx >= 0 ==> k == len + idx
  {
    if idx < 0 then (if len + idx < 0 then 0 else len + idx)
    else if idx > len then len
    else idx
  }

  /** The array left after `splice(idx, 1)`. */
  function SpliceOne<T>(s: seq<T>, idx: int): (r: seq<T>)
    ensures |r| == if idx < |s| && s != [] then |s| - 1 else |s|
  {
    var k := SpliceStart(|s|, idx);
    if k < |s| then s[..k] + s[k + 1..] else s
  }

  /**
   * For an index inside the array, exactly the element at `idx` goes: the
   * ones before keep their places, the ones after move down by one, and
   * the multiset loses that one element.
   */
  lemma SpliceOneRemovesAt<T>(s: seq<T>, idx: int)
    requires 0 <= idx < |s|
    ensures |SpliceOne(s, idx)| == |s| - 1
    ensures forall i :: 0 <= i < idx ==> SpliceOne(s, idx)[i] == s[i]
    ensures forall i :: idx <= i < |s| - 1 ==> SpliceOne(s, idx)[i] == s[i + 1]
    ensures multiset(SpliceOne(s, idx)) + multiset{s[idx]} == multiset(s)
  {
    var r := SpliceOne(s, idx);
    assert s == s[..idx] + [s[idx]] + s[idx + 1..];
    assert r == s[..idx] + s[idx + 1..];
  }

  /** An index at or past the end removes nothing. */
  lemma SpliceOnePastEnd<T>(s: seq<T>, idx: int)
    requires idx >= |s|
    ensures SpliceOne(s, idx) == s
  {
  }

  /** A negative index within the length counts from the end. */
  lemma SpliceOneFromEnd<T>(s: seq<T>, idx: int)
    requires -|s| <= idx < 0
    ensures SpliceOne(s, idx) == SpliceOne(s, |s| + idx)
  {
  }

  /** Nothing new appears: every element left was in the array before. */
  lemma SpliceOneSubset<T>(s: seq<T>, idx: int)
    ensures forall x :: x in SpliceOne(s, idx) ==> x in s
    ensures |s| - 1 <= |SpliceOne(s, idx)| <= |s|
  {
    var k := SpliceStart(|s|, idx);
    if k < |s| {
      forall x | x in SpliceOne(s, idx) ensures x in s {
        var i :| 0 <= i < |SpliceOne(s, idx)| && SpliceOne(s, idx)[i] == x;
        if i < k { assert x == s[i]; } else { assert x == s[i + 1]; }
      }
    }
  }

  // ---------------------------------------------------------------------
  // The state record
  // ---------------------------------------------------------------------

  class GameState {
    var rocketX: real
    var rocketY: real
    var rocketAngle: real
    var lasers: seq<Laser>
    var particles: seq<Particle>
    var asteroids: seq<Asteroid>
    var spawnTimer: int
    var score: int
    var lives: int
    var invincible: int
    var dead: bool
    var respawnTimer: int
    var boss: Option<Boss>
    var bossWarning: int
    var bossDefeated: bool
    var gamePhase: GamePhase
    var shakeX: real
    var shakeY: real
    var shakeIntensity: real
    var gameOver: bool
    var startTime: int
    var elapsedMs: int
    /** How many times the end of the run has been reported. */
    ghost var gameOverReports: nat

    /**
     * Lives stay between 0 and 3, the run is over exactly when none are
     * left, and a run that is over has been reported exactly once; the boss
     * exists exactly in the boss phase; a warning needs enough kills.
     */
    ghost predicate Valid()
      reads this
    {
      && 0 <= lives <= PLAYER_LIVES
      && (gameOver <==> lives == 0)
      && (gameOver ==> dead)
      && gameOverReports == (if gameOver then 1 else 0)
      && score >= 0
      && (gamePhase == Warning ==> score >= BOSS_THRESHOLD)
      && (boss.Some? <==> gamePhase == BossFight)
      && (boss.Some? ==> 0 <= boss.value.hp <= boss.value.maxHp == BOSS_HP)
      && (forall l :: l in lasers ==> l.life == LASER_LIFE)
      && (forall a :: a in asteroids ==> WellFormedAsteroid(a))
      && (forall q :: q in particles ==> WellFormedParticle(q))
    }

    /** The record as a new game starts it; `now` is `Date.now()`. */
    constructor(now: int)
      ensures Valid()
      ensures rocketX == 0.0 && rocketY == 0.0 && rocketAngle == -PI / 2.0
      ensures lasers == [] && particles == [] && asteroids == []
      ensures spawnTimer == 0 && score == 0 && lives == PLAYER_LIVES && invincible == 0
      ensures !dead && respawnTimer == 0
      ensures boss == None && bossWarning == 0 && !bossDefeated && gamePhase == Normal
      ensures shakeX == 0.0 && shakeY == 0.0 && shakeIntensity == 0.0
      ensures !gameOver && startTime == now && elapsedMs == 0
    {
      rocketX, rocketY, rocketAngle := 0.0, 0.0, -PI / 2.0;
      lasers, particles, asteroids := [], [], [];
      spawnTimer, score, lives, invincible := 0, 0, PLAYER_LIVES, 0;
      dead, respawnTimer := false, 0;
      boss, bossWarning, bossDefeated, gamePhase := None, 0, false, Normal;
      shakeX, shakeY, shakeIntensity := 0.0, 0.0, 0.0;
      gameOver, startTime, elapsedMs := false, now, 0;
      gameOverReports := 0;
    }

    /**
     * `shootLaser`: nothing while the rocket is down or the run is over;
     * otherwise one laser is appended at the rocket's nose, flying along
     * the rocket's heading with a full life, and the others stay as they were.
     */
    method ShootLaser(circle: real -> Vec)
      requires Valid()
      modifies this`lasers
      ensures Valid()
      ensures old(dead || gameOver) ==> lasers == old(lasers)
      ensures !old(dead || gameOver) ==>
        && |lasers| == |old(lasers)| + 1
        && lasers[..|old(lasers)|] == old(lasers)
        && var l, dir := lasers[|lasers| - 1], circle(rocketAngle);
           && l.life == LASER_LIFE
           && l.x == rocketX + dir.x * NOSE_OFFSET && l.y == rocketY + dir.y * NOSE_OFFSET
           && l.vx == dir.x * LASER_SPEED && l.vy == dir.y * LASER_SPEED
    {
      if dead || gameOver {
        return;
      }
      var dir := circle(rocketAngle);
      lasers := lasers + [Laser(rocketX + dir.x * NOSE_OFFSET, rocketY + dir.y * NOSE_OFFSET,
                                dir.x * LASER_SPEED, dir.y * LASER_SPEED, LASER_LIFE)];
    }

    /**
     * `spawnAsteroid(w, h)`: nothing during the boss fight; otherwise one
     * asteroid is appended, entering from an edge, with hit points by its
     * size and its outline from `generateShape`.
     */
    method SpawnAsteroid(w: real, h: real, d: AsteroidDraw, circle: real -> Vec)
      requires Valid()
      modifies this`asteroids
      ensures Valid()
      ensures old(gamePhase) == BossFight ==> asteroids == old(asteroids)
      ensures old(gamePhase) != BossFight ==>
        && |asteroids| == |old(asteroids)| + 1
        && asteroids[..|old(asteroids)|] == old(asteroids)
        && var a := asteroids[|asteroids| - 1];
           && a == NewAsteroid(w, h, d, a.shape)
           && |a.shape| == ShapePoints(d)
           && forall i :: 0 <= i < |a.shape| ==> a.shape[i] == Scale(circle(VertexAngle(i, ShapePoints(d))), SpawnRadius(d))
    {
      if gamePhase == BossFight {
        return;
      }
      var shape := GenerateShape(SpawnRadius(d), ShapePoints(d), circle);
      asteroids := asteroids + [NewAsteroid(w, h, d, shape)];
    }

    /**
     * `spawnExplosion(x, y, count, scale)`: `count` particles (none when
     * `count` is not positive) are appended, the `p`-th one spread `p / count`
     * of a turn round the centre.
     */
    method SpawnExplosion(x: real, y: real, count: int, scale: real, draws: int -> ParticleDraw, circle: real -> Vec)
      requires forall q :: q in particles ==> WellFormedParticle(q)
      modifies this`particles
      ensures forall q :: q in particles ==> WellFormedParticle(q)
      ensures |particles| == |old(particles)| + BurstSize(count)
      ensures particles[..|old(particles)|] == old(particles)
      ensures forall p :: 0 <= p < BurstSize(count) ==>
        particles[|old(particles)| + p] == BurstParticle(x, y, p, count, scale, draws(p), circle)
    {
      var n := |particles|;
      var p := 0;
      while p < count
        invariant 0 <= p && (count > 0 ==> p <= count)
        invariant count <= 0 ==> p == 0
        invariant |particles| == n + p
        invariant particles[..n] == old(particles)
        invariant forall i :: 0 <= i < p ==> particles[n + i] == BurstParticle(x, y, i, count, scale, draws(i), circle)
        invariant forall q :: q in particles ==> WellFormedParticle(q)
      {
        particles := particles + [BurstParticle(x, y, p, count, scale, draws(p), circle)];
        p := p + 1;
      }
    }

    /** Whether destroying one more asteroid now brings on the boss warning. */
    ghost predicate WarningDue()
      reads this
    {
      score + 1 >= BOSS_THRESHOLD && boss.None? && !bossDefeated && gamePhase == Normal
    }

    /**
     * `explodeAsteroid(ast, idx)`: a burst of `20 + floor(radius)` particles
     * at the asteroid, the asteroid at `idx` removed as `splice(idx, 1)`
     * removes it, one more point, and the boss warning (180 frames) starts
     * exactly when the score reaches the threshold while no boss has come or
     * gone and the phase is normal.
     */
    method ExplodeAsteroid(ast: Asteroid, idx: int, draws: int -> ParticleDraw, circle: real -> Vec)
      requires Valid()
      modifies this`particles, this`asteroids, this`score, this`gamePhase, this`bossWarning
      ensures Valid()
      ensures |particles| == |old(particles)| + BurstSize(20 + ast.radius.Floor)
      ensures particles[..|old(particles)|] == old(particles)
      ensures asteroids == SpliceOne(old(asteroids), idx)
      ensures score == old(score) + 1
      ensures old(WarningDue()) ==> gamePhase == Warning && bossWarning == BOSS_WARNING_FRAMES
      ensures !old(WarningDue()) ==> gamePhase == old(gamePhase) && bossWarning == old(bossWarning)
    {
      SpawnExplosion(ast.x, ast.y, 20 + ast.radius.Floor, 1.0, draws, circle);
      SpliceOneSubset(asteroids, idx);
      asteroids := SpliceOne(asteroids, idx);
      score := score + 1;
      if score >= BOSS_THRESHOLD && boss.None? && !bossDefeated && gamePhase == Normal {
        gamePhase := Warning;
        bossWarning := BOSS_WARNING_FRAMES;
      }
    }

    /**
     * `destroyRocket`: nothing while invincible or already down. Otherwise a
     * burst of 30 particles, shake 15, one life fewer and the rocket down;
     * with no lives left the run is over and the score is reported (the
     * `onGameOver` call), else the respawn countdown is set to 90 frames.
     */
    method DestroyRocket(draws: int -> ParticleDraw, circle: real -> Vec) returns (report: Option<int>)
      requires Valid()
      modifies this`particles, this`shakeIntensity, this`lives, this`dead, this`gameOver, this`respawnTimer, this`gameOverReports
      ensures Valid()
      ensures old(invincible > 0 || dead) ==> report == None && unchanged(this)
      ensures !old(invincible > 0 || dead) ==>
        && lives == old(lives) - 1
        && dead
        && shakeIntensity == HIT_SHAKE
        && |particles| == |old(particles)| + 30
        && particles[..|old(particles)|] == old(particles)
        && (lives <= 0 ==> gameOver && report == Some(score) && respawnTimer == old(respawnTimer))
        && (lives > 0 ==> !gameOver && report == None && respawnTimer == RESPAWN_FRAMES)
      ensures report.Some? ==> !old(gameOver) && gameOver
    {
      if invincible > 0 || dead {
        return None;
      }
      SpawnExplosion(rocketX, rocketY, 30, 1.5, draws, circle);
      shakeIntensity := HIT_SHAKE;
      lives := lives - 1;
      dead := true;
      if lives <= 0 {
        gameOver := true;
        gameOverReports := gameOverReports + 1;
        report := Some(score);
      } else {
        respawnTimer := RESPAWN_FRAMES;
        report := None;
      }
    }

    /**
     * `spawnBoss`: a fresh boss centred above a `width` by `height` canvas,
     * aiming for 22% of the height, at full hit points (50), entering, in
     * its first tier, with every timer at zero; the game enters the boss phase.
     */
    method SpawnBoss(width: int, height: int)
      requires Valid()
      modifies this`boss, this`gamePhase
      ensures Valid()
      ensures gamePhase == BossFight && boss.Some?
      ensures var b := boss.value;
        && b.x == width as real / 2.0 && b.y == -80.0 && b.targetY == height as real * 0.22
        && b.hp == BOSS_HP && b.maxHp == BOSS_HP
        && b.phase == "enter" && b.bossPhase == 1
        && b.moveT == 0.0 && b.shootTimer == 0.0 && b.bobT == 0.0 && b.lightT == 0.0
        && b.phaseFlash == 0.0 && b.asteroidTimer == 0.0
    {
      boss := Some(Boss(width as real / 2.0, -80.0, height as real * 0.22,
                        BOSS_HP, BOSS_HP, "enter", 0.0, 0.0, 0.0, 0.0, 1, 0.0, 0.0));
      gamePhase := BossFight;
    }

    /**
     * The clock update at the top of each frame: while the run is neither
     * lost nor won, the elapsed time is `now - startTime`; afterwards it
     * stays frozen.
     */
    method UpdateElapsed(now: int)
      modifies this`elapsedMs
      ensures !gameOver && !bossDefeated ==> elapsedMs == now - startTime
      ensures gameOver || bossDefeated ==> elapsedMs == old(elapsedMs)
    {
      if !gameOver && !bossDefeated {
        elapsedMs := now - startTime;
      }
    }
  }

  /** A rocket that is up has a life left, and a finished run has none and was reported once. */
  lemma {:induction false} LivesStayInRange(g: GameState)
    requires g.Valid()
    ensures !g.dead ==> 1 <= g.lives
    ensures g.gameOver ==> g.gameOverReports == 1 && g.lives == 0
  {
  }

  // ---------------------------------------------------------------------
  // The HUD clock text
  // ---------------------------------------------------------------------

  /**
   * `formatTimeHUD(ms)`: whole minutes, a colon, the seconds of the minute
   * padded to two digits, a point and the tenths of a second. Division is
   * floored and `%` truncated, as in JavaScript.
   */
  function FormatTimeHUD(ms: int): string {
    var totalSec := ms / 1000;
    var min := totalSec / 60;
    var sec := JsRem(totalSec, 60);
    var frac := JsRem(ms, 1000) / 100;
    HudText(min, sec, frac)
  }

  /** Minutes, a colon, the seconds padded to two digits, a point and the tenths digit. */
  function HudText(min: int, sec: int, frac: int): string {
    IntToString(min) + ":" + PadStart(IntToString(sec), 2) + "." + IntToString(frac)
  }

  /** Reads `M:SS.t` back into milliseconds: seconds below 60 in two digits, one tenths digit. */
  function ParseHud(s: string): Option<int> {
    if |s| < 6 || s[|s| - 2] != '.' then None
    else
      match (ParseMinSec(s[..|s| - 2]), ParseDigits(s[|s| - 1..]))
      case (Some(clock), Some(tenths)) => Some(clock + tenths * 100)
      case _ => None
  }

  /** Minutes, seconds and a tenths digit split out of a non-negative time. */
  lemma HudSplit(ms: int)
    requires ms >= 0
    ensures ms / 1000 % 60 < 60 && ms % 1000 / 100 < 10
    ensures ms - ms % 100 == (ms / 1000 / 60) * 60000 + (ms / 1000 % 60) * 1000 + (ms % 1000 / 100) * 100
  {
    var sec := ms / 1000;
    assert ms == sec * 1000 + ms % 1000;
    assert sec == (sec / 60) * 60 + sec % 60;
    TenthsOf(ms);
  }

  /** The hundreds digit of the millisecond part counts the whole tenths. */
  lemma TenthsOf(ms: int)
    requires ms >= 0
    ensures ms % 1000 - ms % 100 == (ms % 1000 / 100) * 100
  {
    var q, r := ms / 1000, ms % 1000;
    var q2, r2 := r / 100, r % 100;
    assert ms == (q * 10 + q2) * 100 + r2;
    assert 0 <= r2 < 100;
  }

  /** The pieces of the HUD text and the digits they carry. */
  lemma {:induction false} HudPieces(min: nat, sec: nat, frac: nat) returns (a: string, b: string, c: string)
    requires sec < 60 && frac < 10
    ensures HudText(min, sec, frac) == a + ":" + b + "." + c
    ensures 1 <= |a| && AllDigits(a) && DigitsValue(a) == min
    ensures |b| == 2 && AllDigits(b) && DigitsValue(b) == sec
    ensures |c| == 1 && AllDigits(c) && DigitsValue(c) == frac
  {
    a, b, c := HudDigits(min, sec, frac);
    HudConcat(min, sec, frac);
  }

  /** The HUD text is its three numerals joined by `:` and `.`. */
  lemma HudConcat(min: nat, sec: nat, frac: nat)
    ensures HudText(min, sec, frac) == NatToString(min) + ":" + PadStart(NatToString(sec), 2) + "." + NatToString(frac)
  {
  }

  /** The three numerals of the HUD text and the values they spell. */
  lemma {:induction false} HudDigits(min: nat, sec: nat, frac: nat) returns (a: string, b: string, c: string)
    requires sec < 60 && frac < 10
    ensures a == NatToString(min) && b == PadStart(NatToString(sec), 2) && c == NatToString(frac)
    ensures 1 <= |a| && AllDigits(a) && DigitsValue(a) == min
    ensures |b| == 2 && AllDigits(b) && DigitsValue(b) == sec
    ensures |c| == 1 && AllDigits(c) && DigitsValue(c) == frac
  {
    a := NatToString(min);
    b := PadStart(NatToString(sec), 2);
    c := NatToString(frac);
    PaddedNat(sec, 2);
    NatToStringValue(min);
    NatToStringValue(frac);
  }

  /** Reading a whole `M:SS.t` text. */
  lemma {:induction false} ParseHudForm(a: string, b: string, c: string, v: int)
    requires 1 <= |a| && AllDigits(a)
    requires |b| == 2 && AllDigits(b) && DigitsValue(b) < 60
    requires |c| == 1 && AllDigits(c)
    requires v == DigitsValue(a) * 60000 + DigitsValue(b) * 1000 + DigitsValue(c) * 100
    ensures ParseHud(a + ":" + b + "." + c) == Some(v)
  {
    ParseMinSecOf(a, b);
    var head := a + ":" + b;
    var t := head + "." + c;
    assert t[..|t| - 2] == head;
    assert t[|t| - 1..] == c;
    assert t[|t| - 2] == '.';
  }

  /** `M:SS.t` reads back as its minutes, seconds and tenths. */
  lemma {:induction false} ParseHudText(min: nat, sec: nat, frac: nat, v: int)
    requires sec < 60 && frac < 10 && v == min * 60000 + sec * 1000 + frac * 100
    ensures ParseHud(HudText(min, sec, frac)) == Some(v)
  {
    var a, b, c := HudPieces(min, sec, frac);
    ParseHudForm(a, b, c, v);
  }

  /**
   * For a non-negative time the HUD shows `M:SS.t` with the seconds below
   * 60 in two digits and one tenths digit, and the text reads back as the
   * time cut down to whole tenths of a second.
   */
  lemma {:induction false} FormatTimeHUDRoundTrip(ms: int)
    requires ms >= 0
    ensures ParseHud(FormatTimeHUD(ms)) == Some(ms - ms % 100)
  {
    var v := HudReadsBack(ms);
  }

  /** The HUD text of a non-negative time reads back as some value `v`, the time cut to tenths. */
  lemma HudReadsBack(ms: int) returns (v: int)
    requires ms >= 0
    ensures ParseHud(FormatTimeHUD(ms)) == Some(v) && v == ms - ms % 100
  {
    var min, sec, frac;
    min, sec, frac, v := HudPartsOf(ms);
    ParseHudText(min, sec, frac, v);
  }

  /** The HUD text of a non-negative time, as its three numbers. */
  lemma HudPartsOf(ms: int) returns (min: nat, sec: nat, frac: nat, v: int)
    requires ms >= 0
    ensures FormatTimeHUD(ms) == HudText(min, sec, frac) && v == ms - ms % 100
    ensures sec < 60 && frac < 10 && v == min * 60000 + sec * 1000 + frac * 100
  {
    min, sec, frac, v := ms / 1000 / 60, ms / 1000 % 60, ms % 1000 / 100, ms - ms % 100;
    HudOfNonNegative(ms);
    HudSplit(ms);
  }

  /** For a non-negative time JavaScript's `%` is Dafny's, so the pieces are plain quotients and remainders. */
  lemma HudOfNonNegative(ms: int)
    requires ms >= 0
    ensures FormatTimeHUD(ms) == HudText(ms / 1000 / 60, ms / 1000 % 60, ms % 1000 / 100)
  {
    assert JsRem(ms / 1000, 60) == ms / 1000 % 60;
    assert JsRem(ms, 1000) == ms % 1000;
  }
}
