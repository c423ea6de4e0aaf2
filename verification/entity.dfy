/** The base physical object of the simulation and its kinematic
    specialisation (`Entity` and `MainEntity` in src/Entities/Entity.ts):
    the fixed-step integrator, the two movement semantics behind the same
    four commands, the collision box and the canvas clamp. */
module Entities {
  import opened Numeric

  /** The only shape the collision resolver handles. */
  const Rectangle: string := "rectangle"

  /** Force entities integrate thrust into the acceleration accumulator;
      kinematic entities (player and enemies) set their velocity directly. */
  datatype Motion = Force | Kinematic

  /** The four directional commands every entity accepts. */
  datatype Command = MoveLeft | MoveRight | MoveUp | MoveDown
  {
    predicate Horizontal() { MoveLeft? || MoveRight? }
  }

  /** The configuration an entity is built from (`EntityProps`, without the
      drawing fields `fillStyle` and `image`). */
  datatype EntityProps = EntityProps(
    id: string, shape: string,
    x: real, y: real, length: real, width: real,
    mass: real, health: real, maxHealth: real,
    dx: real, dy: real, dx2: real, dy2: real,
    maxVelocity: real, maxAcceleration: real,
    xForce: real, yForce: real,
    restitution: real, healthChangeStep: real)

  /** The physical state of one entity.  `(dx, dy)` is the velocity and
      `(dx2, dy2)` the acceleration accumulator. */
  datatype Entity = Entity(
    motion: Motion,
    id: string, shape: string,
    x: real, y: real, length: real, width: real,
    mass: real, health: real, maxHealth: real,
    dx: real, dy: real, dx2: real, dy2: real,
    maxVelocity: real, maxAcceleration: real,
    xForce: real, yForce: real,
    restitution: real, healthChangeStep: real)

  /** The configuration an entity's fields still agree with. */
  function PropsOf(e: Entity): EntityProps
  {
    EntityProps(e.id, e.shape, e.x, e.y, e.length, e.width, e.mass, e.health, e.maxHealth,
                e.dx, e.dy, e.dx2, e.dy2, e.maxVelocity, e.maxAcceleration,
                e.xForce, e.yForce, e.restitution, e.healthChangeStep)
  }

  /** The `Entity` constructor: every physical field is copied from the
      configuration, and the entity is force-integrated. */
  function NewEntity(p: EntityProps): (e: Entity)
    ensures e.motion == Force
    ensures PropsOf(e) == p
  {
    Entity(Force, p.id, p.shape, p.x, p.y, p.length, p.width, p.mass, p.health, p.maxHealth,
           p.dx, p.dy, p.dx2, p.dy2, p.maxVelocity, p.maxAcceleration,
           p.xForce, p.yForce, p.restitution, p.healthChangeStep)
  }

  /** The health an entity reaches after `t` seconds: regeneration or decay,
      clamped from above only. */
  function NextHealth(e: Entity, t: real): (h: real)
    ensures h <= e.maxHealth
    ensures e.health + e.healthChangeStep * t <= e.maxHealth ==> h == e.health + e.healthChangeStep * t
    ensures e.health + e.healthChangeStep * t > e.maxHealth ==> h == e.maxHealth
  {
    var h := e.health + e.healthChangeStep * t;
    if h > e.maxHealth then e.maxHealth else h
  }

  /** `_updatePhysicalData`, the fixed-step integrator.  Health is updated
      first; an entity whose health became negative is moved to the
      sentinel position (-1, -1) and keeps its velocity and accumulator;
      any other entity integrates its accumulator into a clamped velocity
      and then moves by that new velocity. */
  function UpdatePhysicalData(e: Entity, t: real): (r: Entity)
    ensures r.health == NextHealth(e, t) && r.health <= e.maxHealth
    ensures r == e.(health := r.health, x := r.x, y := r.y, dx := r.dx, dy := r.dy)
    ensures r.health < 0.0 ==> r.x == -1.0 && r.y == -1.0 && r.dx == e.dx && r.dy == e.dy
    ensures r.health >= 0.0 && e.maxVelocity >= 0.0 ==>
              Abs(r.dx) <= e.maxVelocity && Abs(r.dy) <= e.maxVelocity
    ensures r.health >= 0.0 && e.maxVelocity >= 0.0 ==>
              (e.dx + e.dx2 * t > 0.0 ==> r.dx >= 0.0) && (e.dx + e.dx2 * t < 0.0 ==> r.dx <= 0.0) &&
              (e.dy + e.dy2 * t > 0.0 ==> r.dy >= 0.0) && (e.dy + e.dy2 * t < 0.0 ==> r.dy <= 0.0)
    ensures r.health >= 0.0 && Abs(e.dx + e.dx2 * t) <= e.maxVelocity ==> r.dx == e.dx + e.dx2 * t
    ensures r.health >= 0.0 && Abs(e.dy + e.dy2 * t) <= e.maxVelocity ==> r.dy == e.dy + e.dy2 * t
    ensures r.health >= 0.0 ==>
              r.dx == ClampMagnitude(e.dx + e.dx2 * t, e.maxVelocity) &&
              r.dy == ClampMagnitude(e.dy + e.dy2 * t, e.maxVelocity)
    ensures r.health >= 0.0 ==> r.x == e.x + r.dx * t && r.y == e.y + r.dy * t
  {
    var h := NextHealth(e, t);
    if h < 0.0 then
      e.(health := h, x := -1.0, y := -1.0)
    else
      var dx := ClampMagnitude(e.dx + e.dx2 * t, e.maxVelocity);
      var dy := ClampMagnitude(e.dy + e.dy2 * t, e.maxVelocity);
      e.(health := h, dx := dx, dy := dy, x := e.x + dx * t, y := e.y + dy * t)
  }

  /** The unclamped accumulator value a force command aims at:
      `(accumulator ± force) / mass` on the commanded axis. */
  function Thrust(e: Entity, c: Command): real
    requires e.mass != 0.0
  {
    match c
    case MoveLeft => (e.dx2 - e.xForce) / e.mass
    case MoveRight => (e.dx2 + e.xForce) / e.mass
    case MoveUp => (e.dy2 + e.yForce) / e.mass
    case MoveDown => (e.dy2 - e.yForce) / e.mass
  }

  /** The accumulator a command acts on. */
  function Accumulator(e: Entity, c: Command): real
  {
    if c.Horizontal() then e.dx2 else e.dy2
  }

  /** `Entity.moveLeft/Right/Up/Down`: the commanded axis' accumulator
      becomes the thrust target, clamped in magnitude to `maxAcceleration`
      with its sign kept; nothing else changes. */
  function ForceMove(e: Entity, c: Command): (r: Entity)
    requires e.mass != 0.0
    ensures c.Horizontal() ==> r == e.(dx2 := r.dx2)
    ensures !c.Horizontal() ==> r == e.(dy2 := r.dy2)
    ensures e.maxAcceleration >= 0.0 ==> Abs(Accumulator(r, c)) <= e.maxAcceleration
    ensures Abs(Thrust(e, c)) <= e.maxAcceleration ==> Accumulator(r, c) == Thrust(e, c)
    ensures e.maxAcceleration > 0.0 ==> Sign(Accumulator(r, c)) == Sign(Thrust(e, c))
    ensures e.maxAcceleration >= 0.0 && Abs(Thrust(e, c)) > e.maxAcceleration ==>
              Abs(Accumulator(r, c)) == e.maxAcceleration
  {
    var a := ClampMagnitude(Thrust(e, c), e.maxAcceleration);
    if c.Horizontal() then e.(dx2 := a) else e.(dy2 := a)
  }

  /** `MainEntity.moveLeft/Right/Up/Down`: the velocity is set to
      `±maxVelocity` on the commanded axis and the other axis is zeroed.
      `MoveUp` points toward larger `y`. */
  function KinematicMove(e: Entity, c: Command): (r: Entity)
    ensures r == e.(dx := r.dx, dy := r.dy)
    ensures c == MoveLeft ==> r.dx == -e.maxVelocity && r.dy == 0.0
    ensures c == MoveRight ==> r.dx == e.maxVelocity && r.dy == 0.0
    ensures c == MoveUp ==> r.dx == 0.0 && r.dy == e.maxVelocity
    ensures c == MoveDown ==> r.dx == 0.0 && r.dy == -e.maxVelocity
  {
    match c
    case MoveLeft => e.(dx := -e.maxVelocity, dy := 0.0)
    case MoveRight => e.(dx := e.maxVelocity, dy := 0.0)
    case MoveUp => e.(dx := 0.0, dy := e.maxVelocity)
    case MoveDown => e.(dx := 0.0, dy := -e.maxVelocity)
  }

  /** A kinematic command forgets every earlier one: the last command wins,
      and in particular repeating a command changes nothing. */
  lemma KinematicLastCommandWins(e: Entity, first: Command, second: Command)
    ensures KinematicMove(KinematicMove(e, first), second) == KinematicMove(e, second)
    ensures KinematicMove(KinematicMove(e, second), second) == KinematicMove(e, second)
  {
  }

  /** The command as the entity's own class interprets it. */
  function Move(e: Entity, c: Command): (r: Entity)
    requires e.motion == Force ==> e.mass != 0.0
    ensures e.motion == Force ==> r == ForceMove(e, c)
    ensures e.motion == Kinematic ==> r == KinematicMove(e, c)
  {
    match e.motion
    case Force => ForceMove(e, c)
    case Kinematic => KinematicMove(e, c)
  }

  /** The configuration of a kinematic actor (`MainEntityProps`). */
  datatype MainProps = MainProps(
    id: string, shape: string,
    x: real, y: real, width: real, length: real,
    health: real, maxHealth: real, healthChangeStep: real,
    maxVelocity: real, restitution: real)

  /** What a kinematic actor keeps between ticks: no accumulator, unit mass,
      no force, and a velocity within `maxVelocity` on each axis. */
  predicate KinematicInvariant(e: Entity)
  {
    && e.motion == Kinematic
    && e.dx2 == 0.0 && e.dy2 == 0.0
    && e.mass == 1.0 && e.xForce == 0.0 && e.yForce == 0.0 && e.maxAcceleration == 0.0
    && Abs(e.dx) <= e.maxVelocity && Abs(e.dy) <= e.maxVelocity
  }

  /** The `MainEntity` constructor: the configured geometry, vitality and
      speed, at rest, with unit mass and no force. */
  function NewMainEntity(p: MainProps): (e: Entity)
    ensures e.motion == Kinematic
    ensures e.id == p.id && e.shape == p.shape && e.x == p.x && e.y == p.y
    ensures e.width == p.width && e.length == p.length
    ensures e.health == p.health && e.maxHealth == p.maxHealth && e.healthChangeStep == p.healthChangeStep
    ensures e.maxVelocity == p.maxVelocity && e.restitution == p.restitution
    ensures e.dx == 0.0 && e.dy == 0.0 && e.dx2 == 0.0 && e.dy2 == 0.0
    ensures e.mass == 1.0 && e.xForce == 0.0 && e.yForce == 0.0 && e.maxAcceleration == 0.0
    ensures p.maxVelocity >= 0.0 ==> KinematicInvariant(e)
  {
    Entity(Kinematic, p.id, p.shape, p.x, p.y, p.length, p.width, 1.0, p.health, p.maxHealth,
           0.0, 0.0, 0.0, 0.0, p.maxVelocity, 0.0, 0.0, 0.0, p.restitution, p.healthChangeStep)
  }

  /** Kinematic commands keep the kinematic invariant. */
  lemma KinematicMovePreservesInvariant(e: Entity, c: Command)
    requires KinematicInvariant(e)
    ensures KinematicInvariant(KinematicMove(e, c))
  {
  }

  /** For a kinematic actor the integrator is a pure translation: the
      velocity set by the last command is kept and the position advances
      by velocity times elapsed time (unless the actor dies this step). */
  lemma KinematicStepTranslates(e: Entity, t: real)
    requires KinematicInvariant(e)
    ensures KinematicInvariant(UpdatePhysicalData(e, t))
    ensures UpdatePhysicalData(e, t).dx == e.dx && UpdatePhysicalData(e, t).dy == e.dy
    ensures UpdatePhysicalData(e, t).health >= 0.0 ==>
              UpdatePhysicalData(e, t).x == e.x + e.dx * t && UpdatePhysicalData(e, t).y == e.y + e.dy * t
  {
    var h := NextHealth(e, t);
    if h >= 0.0 {
      assert e.dx + e.dx2 * t == e.dx && e.dy + e.dy2 * t == e.dy;
      assert ClampMagnitude(e.dx, e.maxVelocity) == e.dx;
      assert ClampMagnitude(e.dy, e.maxVelocity) == e.dy;
      assert UpdatePhysicalData(e, t) == e.(health := h, x := e.x + e.dx * t, y := e.y + e.dy * t);
    }
  }

  /** The box the collision test sees (`getPhysicalShapeInfo`). */
  datatype Rect = Rect(shape: string, x: real, y: real, width: real, length: real)

  /** `getPhysicalShapeInfo` reports the entity's width as both extents:
      the stored `length` is ignored. */
  function ShapeInfo(e: Entity): (r: Rect)
    ensures r.shape == e.shape && r.x == e.x && r.y == e.y
    ensures r.width == e.width && r.length == e.width
  {
    Rect(e.shape, e.x, e.y, e.width, e.width)
  }

  /** `limitPosition` against a canvas of `width` × `height`: corners are
      tested first, then the four edges, and a touching edge counts as out. */
  function LimitPosition(e: Entity, width: real, height: real): (r: Entity)
    ensures r == e.(x := r.x, y := r.y)
    ensures e.width <= width && e.length <= height ==>
              0.0 <= r.x <= width - e.width && 0.0 <= r.y <= height - e.length
    ensures 0.0 < e.x && e.x + e.width < width && 0.0 < e.y && e.y + e.length < height ==> r == e
    ensures e.width <= width && e.length <= height ==>
              r.x == (if e.x <= 0.0 then 0.0 else if e.x + e.width >= width then width - e.width else e.x)
    ensures e.width <= width && e.length <= height ==>
              r.y == (if e.y <= 0.0 then 0.0 else if e.y + e.length >= height then height - e.length else e.y)
  {
    if e.x <= 0.0 && e.y <= 0.0 then e.(x := 0.0, y := 0.0)
    else if e.x <= 0.0 && e.y + e.length >= height then e.(x := 0.0, y := height - e.length)
    else if e.x + e.width >= width && e.y <= 0.0 then e.(x := width - e.width, y := 0.0)
    else if e.x + e.width >= width && e.y + e.length >= height then
      e.(x := width - e.width, y := height - e.length)
    else if e.x <= 0.0 then e.(x := 0.0)
    else if e.x + e.width >= width then e.(x := width - e.width)
    else if e.y <= 0.0 then e.(y := 0.0)
    else if e.y + e.length >= height then e.(y := height - e.length)
    else e
  }

  /** Limiting an already limited entity changes nothing. */
  lemma LimitPositionIdempotent(e: Entity, width: real, height: real)
    requires e.width <= width && e.length <= height
    ensures LimitPosition(LimitPosition(e, width, height), width, height) == LimitPosition(e, width, height)
  {
  }
}
