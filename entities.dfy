/** The entities of the arcade world (the player's ship, the invaders and the
    bullets): their shape, their fixed sizes and speeds, the key state the
    player reads, and the change each entity makes to its own fields in one
    tick. Positions are exact reals; JavaScript's floating point is not
    modelled. */
module Entities {

  /** A point or an extent on the playfield. */
  datatype Vec = Vec(x: real, y: real)

  function Plus(a: Vec, b: Vec): Vec {
    Vec(a.x + b.x, a.y + b.y)
  }

  function Abs(x: real): real {
    if x < 0.0 then -x else x
  }

  /** What distinguishes the three kinds of body: an invader's patrol state,
      a bullet's constant velocity. */
  datatype Kind =
    | Player
    | Invader(patrolX: real, speedX: real)
    | Bullet(velocity: Vec)

  /** The width and height of a body. Every body the game creates has a
      fixed positive size, so an extent is never negative. */
  type Extent = v: Vec | 0.0 <= v.x && 0.0 <= v.y witness Vec(0.0, 0.0)

  /** A body of the world. `id` stands for the identity of the JavaScript
      object: two bodies are the same object exactly when their ids agree. */
  datatype Body = Body(id: nat, center: Vec, size: Extent, kind: Kind)

  const PLAYER_SIZE: Extent := Vec(15.0, 15.0)
  const INVADER_SIZE: Extent := Vec(15.0, 15.0)
  const BULLET_SIZE: Extent := Vec(3.0, 3.0)

  /** Horizontal step of the ship per tick while LEFT or RIGHT is held. */
  const PLAYER_STEP: real := 2.0
  /** Gap between the top of the ship and a bullet it fires. */
  const MUZZLE_GAP: real := 10.0
  const PLAYER_BULLET_VELOCITY := Vec(0.0, -7.0)
  const INVADER_BULLET_SPEED_Y: real := 2.0

  /** The patrol window an invader's horizontal offset is kept in. */
  const PATROL_LOW: real := 0.0
  const PATROL_HIGH: real := 40.0
  const INVADER_SPEED: real := 0.3
  /** An invader fires when its random draw exceeds this. */
  const FIRE_THRESHOLD: real := 0.995

  /** Key codes of the three control keys. */
  const LEFT: int := 37
  const RIGHT: int := 39
  const SPACE: int := 32

  /** Which keys are held: a code that is absent, or mapped to false, is up. */
  type KeyState = map<int, bool>

  /** A key is down only when it has been recorded, and recorded as held. */
  predicate IsDown(keys: KeyState, code: int): (r: bool)
    ensures r ==> code in keys
    ensures code !in keys ==> !r
    ensures code in keys ==> (r <==> keys[code])
  {
    code in keys && keys[code]
  }

  /** A body whose box is not inverted on either axis. */
  predicate NonNegativeSize(b: Body) {
    b.size.x >= 0.0 && b.size.y >= 0.0
  }

  /** Every body's box is a proper box: its extent is never negative. */
  lemma AllSizesNonNegative(b: Body)
    ensures NonNegativeSize(b)
  {
  }

  /** `new Bullet(center, velocity)`: a bullet of the fixed bullet size whose
      velocity is the one given. */
  function MakeBullet(id: nat, center: Vec, velocity: Vec): (r: Body)
    ensures r.id == id && r.center == center
    ensures r.kind.Bullet? && r.kind.velocity == velocity
    ensures r.size == BULLET_SIZE && NonNegativeSize(r)
  {
    Body(id, center, BULLET_SIZE, Bullet(velocity))
  }

  /** `new Invader(game, center)`: at rest in its patrol window, heading right,
      so a new invader is in a reachable patrol state. */
  function MakeInvader(id: nat, center: Vec): (r: Body)
    ensures r.id == id && r.center == center
    ensures r.kind.Invader? && r.kind.patrolX == PATROL_LOW && r.kind.speedX > 0.0
    ensures InPatrolWindow(r) && !OutsidePatrol(r.kind.patrolX)
    ensures r.size == INVADER_SIZE && NonNegativeSize(r)
  {
    Body(id, center, INVADER_SIZE, Invader(0.0, INVADER_SPEED))
  }

  /** `new Player(game)`: centred horizontally, one ship height above the
      bottom, so the whole ship is inside the bottom half of any game at least
      three ships tall. */
  function MakePlayer(id: nat, gameSize: Vec): (r: Body)
    ensures r.id == id && r.kind.Player?
    ensures r.size == PLAYER_SIZE && NonNegativeSize(r)
    ensures r.center.x + r.center.x == gameSize.x
    ensures r.center.y + r.size.y == gameSize.y
    ensures gameSize.y >= 3.0 * PLAYER_SIZE.y ==>
              gameSize.y / 2.0 <= r.center.y - r.size.y / 2.0 && r.center.y + r.size.y / 2.0 <= gameSize.y
  {
    Body(id, Vec(gameSize.x / 2.0, gameSize.y - PLAYER_SIZE.y), PLAYER_SIZE, Player)
  }

  /** The same constructor of Kind. */
  predicate SameKind(a: Body, b: Body) {
    (a.kind.Player? <==> b.kind.Player?) &&
    (a.kind.Invader? <==> b.kind.Invader?) &&
    (a.kind.Bullet? <==> b.kind.Bullet?)
  }

  /** A bullet after one tick: moved by its velocity, nothing else changed. */
  function MoveBullet(b: Body): (r: Body)
    requires b.kind.Bullet?
    ensures r.center == Plus(b.center, b.kind.velocity)
    ensures r.id == b.id && r.size == b.size && r.kind == b.kind
  {
    b.(center := Plus(b.center, b.kind.velocity))
  }

  /** The ship after one tick: LEFT wins over RIGHT, and firing (SPACE) does
      not move it. */
  function MovePlayer(b: Body, keys: KeyState): (r: Body)
    requires b.kind.Player?
    ensures r.id == b.id && r.size == b.size && r.kind == b.kind
    ensures r.center.y == b.center.y
    ensures IsDown(keys, LEFT) ==> r.center.x == b.center.x - PLAYER_STEP
    ensures !IsDown(keys, LEFT) && IsDown(keys, RIGHT) ==> r.center.x == b.center.x + PLAYER_STEP
    ensures !IsDown(keys, LEFT) && !IsDown(keys, RIGHT) ==> r == b
  {
    if IsDown(keys, LEFT) then b.(center := b.center.(x := b.center.x - PLAYER_STEP))
    else if IsDown(keys, RIGHT) then b.(center := b.center.(x := b.center.x + PLAYER_STEP))
    else b
  }

  predicate OutsidePatrol(patrolX: real) {
    patrolX < PATROL_LOW || patrolX > PATROL_HIGH
  }

  /** An invader's own fields after one tick. The direction is reversed first,
      when the offset has already left the window, and only then do the centre
      and the offset move, both by the new speed. */
  function PatrolStep(b: Body): (r: Body)
    requires b.kind.Invader?
    ensures r.kind.Invader? && r.id == b.id && r.size == b.size
    ensures r.center.y == b.center.y
    ensures OutsidePatrol(b.kind.patrolX) ==> r.kind.speedX == -b.kind.speedX
    ensures !OutsidePatrol(b.kind.patrolX) ==> r.kind.speedX == b.kind.speedX
    ensures Abs(r.kind.speedX) == Abs(b.kind.speedX)
    ensures r.kind.patrolX == b.kind.patrolX + r.kind.speedX
    ensures r.center.x - r.kind.patrolX == b.center.x - b.kind.patrolX
  {
    var speed := if OutsidePatrol(b.kind.patrolX) then -b.kind.speedX else b.kind.speedX;
    b.(center := b.center.(x := b.center.x + speed),
       kind := Invader(b.kind.patrolX + speed, speed))
  }

  /** What a body's own `update` does to its own fields. */
  function Advance(b: Body, keys: KeyState): (r: Body)
    ensures r.id == b.id && r.size == b.size && SameKind(r, b)
    ensures !b.kind.Bullet? ==> r.center.y == b.center.y
  {
    match b.kind
    case Player => MovePlayer(b, keys)
    case Invader(_, _) => PatrolStep(b)
    case Bullet(_) => MoveBullet(b)
  }

  /** `bullet` is the one `shooter` fires in its update, allocated with `id`:
      above the ship moving straight up, or below the invader moving down. */
  predicate IsShotFrom(bullet: Body, shooter: Body, id: nat) {
    && bullet.id == id
    && bullet.size == BULLET_SIZE
    && bullet.kind.Bullet?
    && match shooter.kind
       case Player =>
         && bullet.center == Vec(shooter.center.x, shooter.center.y - shooter.size.y - MUZZLE_GAP)
         && bullet.kind.velocity == PLAYER_BULLET_VELOCITY
       case Invader(_, _) =>
         && bullet.center == Vec(shooter.center.x, shooter.center.y + shooter.size.y)
         && bullet.kind.velocity.y == INVADER_BULLET_SPEED_Y
       case Bullet(_) => false
  }

  // ---------------------------------------------------------------------------
  // Motion over several ticks

  /** A bullet after `n` ticks. */
  function Flight(b: Body, n: nat): (r: Body)
    requires b.kind.Bullet?
    ensures r.kind == b.kind
  {
    if n == 0 then b else MoveBullet(Flight(b, n - 1))
  }

  /** Bullets move linearly: no acceleration, no expiry. */
  lemma {:induction false} FlightIsLinear(b: Body, n: nat)
    requires b.kind.Bullet?
    ensures Flight(b, n).kind == b.kind && Flight(b, n).size == b.size
    ensures Flight(b, n).center ==
            Vec(b.center.x + n as real * b.kind.velocity.x, b.center.y + n as real * b.kind.velocity.y)
  {
    if n > 0 {
      FlightIsLinear(b, n - 1);
    }
  }

  /** An invader after `n` ticks. */
  function Patrol(b: Body, n: nat): (r: Body)
    requires b.kind.Invader?
    ensures r.kind.Invader?
  {
    if n == 0 then b else PatrolStep(Patrol(b, n - 1))
  }

  /** The reachable patrol states: speed ±0.3, the offset at most one step
      outside [0, 40], and outside only on the side it is heading to. */
  predicate InPatrolWindow(b: Body)
    requires b.kind.Invader?
  {
    && (b.kind.speedX == INVADER_SPEED || b.kind.speedX == -INVADER_SPEED)
    && PATROL_LOW - INVADER_SPEED <= b.kind.patrolX <= PATROL_HIGH + INVADER_SPEED
    && (b.kind.patrolX < PATROL_LOW ==> b.kind.speedX < 0.0)
    && (b.kind.patrolX > PATROL_HIGH ==> b.kind.speedX > 0.0)
  }

  /** Patrol motion is a bounded back-and-forth sweep: from a reachable state,
      every later state is reachable too, the row never changes, and the
      centre keeps its distance to the patrol offset. */
  lemma {:induction false} PatrolStaysInWindow(b: Body, n: nat)
    requires b.kind.Invader? && InPatrolWindow(b)
    ensures InPatrolWindow(Patrol(b, n))
    ensures Patrol(b, n).center.y == b.center.y
    ensures Patrol(b, n).center.x - Patrol(b, n).kind.patrolX == b.center.x - b.kind.patrolX
  {
    if n > 0 {
      PatrolStaysInWindow(b, n - 1);
    }
  }

  /** One tick from offset 39 heading right: the direction holds while still inside. */
  lemma PatrolInsideKeepsDirection(b: Body)
    requires b.kind.Invader? && b.kind == Invader(39.0, INVADER_SPEED)
    ensures PatrolStep(b).kind == Invader(39.3, INVADER_SPEED)
  {
  }

  /** Once past 40 the reversal happens in the very next update, before moving. */
  lemma PatrolPastEdgeTurns(b: Body)
    requires b.kind.Invader? && b.kind == Invader(40.1, INVADER_SPEED)
    ensures PatrolStep(b).kind == Invader(39.8, -INVADER_SPEED)
  {
  }
}
