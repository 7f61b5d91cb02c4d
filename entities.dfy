/** The entities of the shooter: the player's bullets, the enemies that chase
    the player and the timed powerups. Each is held BY VALUE in a per-session
    collection and carries an `active` flag; an inactive entity is logically
    dead until the end-of-frame compaction removes it. Positions are reals
    (the program's floats, without rounding). */
module Entities {

  /** Size of the play field (the window), in pixels. */
  const FieldWidth: real := 1600.0
  const FieldHeight: real := 900.0

  datatype Vec = Vec(x: real, y: real)

  /** One draw of the random source: a real uniformly spread over [0, 1).
      A uniform real distribution over [lo, hi) yields lo + (hi - lo) × u for
      the draw u; every such range below is written out with its literals. */
  type Unit = r: real | 0.0 <= r < 1.0

  /** The bounds test a bullet's position must pass to stay alive. */
  predicate InField(p: Vec) {
    0.0 <= p.x <= FieldWidth && 0.0 <= p.y <= FieldHeight
  }

  // ---------------------------------------------------------------- bullets

  const BulletSpeed: real := 600.0
  const BulletRadius: real := 4.0

  /** `pos` is the top-left corner of the bullet's circle. */
  datatype Bullet = Bullet(pos: Vec, vel: Vec, active: bool)

  predicate BulletLive(b: Bullet) { b.active }

  /** A bullet fired from the point `origin` along the direction `dir` (the
      normalised aim, or the zero vector when the aim point is the origin). */
  function Fire(origin: Vec, dir: Vec): (b: Bullet)
    ensures b.active
    ensures b.pos.x + BulletRadius == origin.x && b.pos.y + BulletRadius == origin.y
    ensures b.vel == Vec(BulletSpeed * dir.x, BulletSpeed * dir.y)
    ensures b.vel.x * b.vel.x + b.vel.y * b.vel.y
            == BulletSpeed * BulletSpeed * (dir.x * dir.x + dir.y * dir.y)
  {
    Bullet(Vec(origin.x - BulletRadius, origin.y - BulletRadius),
           Vec(dir.x * BulletSpeed, dir.y * BulletSpeed), true)
  }

  /** One frame of a bullet's flight: a live bullet moves by velocity × dt and
      dies in the same step if its new position has left the field. */
  function Advance(b: Bullet, dt: real): (r: Bullet)
    ensures r.vel == b.vel
    ensures !b.active ==> r == b
    ensures b.active ==> r.pos == Vec(b.pos.x + b.vel.x * dt, b.pos.y + b.vel.y * dt)
    ensures r.active <==> b.active && InField(r.pos)
  {
    if b.active then
      var p := Vec(b.pos.x + b.vel.x * dt, b.pos.y + b.vel.y * dt);
      Bullet(p, b.vel, InField(p))
    else
      b
  }

  // ---------------------------------------------------------------- enemies

  datatype EnemyKind = Type1 | Type2

  datatype Enemy = Enemy(pos: Vec, speed: real, active: bool, kind: EnemyKind, damage: int)

  predicate EnemyLive(e: Enemy) { e.active }

  /** The kind picked by a roll of 0..99: below 60 the weak, slow kind. */
  function KindOf(roll: int): EnemyKind {
    if roll < 60 then Type1 else Type2
  }

  function DamageOf(kind: EnemyKind): int {
    match kind
    case Type1 => 15
    case Type2 => 30
  }

  /** Each kind's speed range is [SpeedLow, SpeedHigh). */
  function SpeedLow(kind: EnemyKind): real {
    match kind
    case Type1 => 80.0
    case Type2 => 120.0
  }

  function SpeedHigh(kind: EnemyKind): real {
    match kind
    case Type1 => 120.0
    case Type2 => 180.0
  }

  /** An enemy is well formed when its damage is its kind's. */
  predicate WellFormed(e: Enemy) {
    e.damage == DamageOf(e.kind)
  }

  /** A fresh enemy of `kind` at `pos`, its speed drawn by `u` from the kind's range. */
  function Spawned(pos: Vec, kind: EnemyKind, u: Unit): (e: Enemy)
    ensures e.active && e.pos == pos && e.kind == kind && WellFormed(e) && e.damage > 0
    ensures SpeedLow(kind) <= e.speed < SpeedHigh(kind)
  {
    var speed := match kind
      case Type1 => 80.0 + 40.0 * u
      case Type2 => 120.0 + 60.0 * u;
    Enemy(pos, speed, true, kind, DamageOf(kind))
  }

  /** The four edges of the field an enemy can enter from. */
  datatype Edge = Top | Right | Bottom | Left

  /** The entry point on `edge`; `u` places it along that edge. */
  function EdgePoint(edge: Edge, u: Unit): (p: Vec)
    ensures InField(p)
    ensures edge == Top ==> p.y == 0.0
    ensures edge == Right ==> p.x == FieldWidth
    ensures edge == Bottom ==> p.y == FieldHeight
    ensures edge == Left ==> p.x == 0.0
  {
    match edge
    case Top => Vec(FieldWidth * u, 0.0)
    case Right => Vec(FieldWidth, FieldHeight * u)
    case Bottom => Vec(FieldWidth * u, FieldHeight)
    case Left => Vec(0.0, FieldHeight * u)
  }

  // ---------------------------------------------------------------- powerups

  datatype PowerupKind = HealthBoost | SpeedBoost

  datatype Powerup = Powerup(pos: Vec, kind: PowerupKind, active: bool, lifetime: real)

  predicate PowerupLive(p: Powerup) { p.active }

  /** Seconds a powerup stays on the field. */
  const PowerupLifetime: real := 10.0

  /** A fresh powerup at an interior point drawn by `ux`, `uy`; a coin of 0
      makes it a health boost, anything else a speed boost. */
  function Dropped(ux: Unit, uy: Unit, coin: int): (p: Powerup)
    ensures p.active && p.lifetime == PowerupLifetime
    ensures 100.0 <= p.pos.x < 1500.0 && 100.0 <= p.pos.y < 800.0
    ensures p.kind == HealthBoost <==> coin == 0
  {
    Powerup(Vec(100.0 + 1400.0 * ux, 100.0 + 700.0 * uy),
            if coin == 0 then HealthBoost else SpeedBoost, true, PowerupLifetime)
  }

  /** One frame of a powerup's life: its lifetime runs down by dt, dead or
      alive, and it dies once nothing is left. */
  function Age(p: Powerup, dt: real): (r: Powerup)
    ensures r.lifetime == p.lifetime - dt
    ensures r.active <==> p.active && r.lifetime > 0.0
    ensures r.pos == p.pos && r.kind == p.kind
  {
    var left := p.lifetime - dt;
    if left <= 0.0 then p.(lifetime := left, active := false) else p.(lifetime := left)
  }
}
