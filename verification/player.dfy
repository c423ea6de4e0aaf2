/** The player craft (src/Entities/Player.ts): a kinematic actor with a
    one-shot dash ("warp") gated by an availability flag, and a shooting
    power that is stored but not used. */
module Players {
  import opened Numeric
  import opened Entities

  /** The configuration of the player (`PlayerProps`). */
  datatype PlayerProps = PlayerProps(
    main: MainProps,
    shootingPower: real, shootingPowerRegainInterval: real,
    warpPower: real, warpPowerRegainInterval: real)

  datatype Player = Player(
    body: Entity,
    warpPower: real, warpPowerRegainInterval: real, warpPowerAvailable: bool,
    shootingPower: real, shootingPowerRegainInterval: real, shootingPowerAvailable: bool)

  /** The position and velocity the player publishes after each step;
      enemies steer toward the last one they received. */
  datatype PlayerSnapshot = PlayerSnapshot(x: real, y: real, dx: real, dy: real)

  /** The `Player` constructor: a kinematic actor built from the configuration,
      both powers available, their amounts and intervals copied unchanged. */
  function NewPlayer(p: PlayerProps): (r: Player)
    ensures r.body == NewMainEntity(p.main)
    ensures r.warpPowerAvailable && r.shootingPowerAvailable
    ensures r.warpPower == p.warpPower && r.warpPowerRegainInterval == p.warpPowerRegainInterval
    ensures r.shootingPower == p.shootingPower && r.shootingPowerRegainInterval == p.shootingPowerRegainInterval
  {
    Player(NewMainEntity(p.main), p.warpPower, p.warpPowerRegainInterval, true,
           p.shootingPower, p.shootingPowerRegainInterval, true)
  }

  /** The displacement of a dash along one axis: `warpPower` in the direction
      of a non-zero velocity component, nothing for a zero component. */
  function DashOffset(v: real, power: real): (d: real)
    ensures v > 0.0 ==> d == power
    ensures v < 0.0 ==> d == -power
    ensures v == 0.0 ==> d == 0.0
  {
    if v != 0.0 then Sign(v) * power else 0.0
  }

  /** `jump`, without its regain timer: when the warp is available the
      player is displaced by `warpPower` along the sign of each non-zero
      velocity axis and the warp is used up; otherwise nothing happens.
      Velocity, health and everything else stay as they were. */
  function Jump(p: Player): (r: Player)
    ensures !p.warpPowerAvailable ==> r == p
    ensures p.warpPowerAvailable ==> !r.warpPowerAvailable
    ensures r == p.(body := r.body, warpPowerAvailable := r.warpPowerAvailable)
    ensures r.body == p.body.(x := r.body.x, y := r.body.y)
    ensures p.warpPowerAvailable && p.body.dx > 0.0 ==> r.body.x == p.body.x + p.warpPower
    ensures p.warpPowerAvailable && p.body.dx < 0.0 ==> r.body.x == p.body.x - p.warpPower
    ensures p.warpPowerAvailable && p.body.dy > 0.0 ==> r.body.y == p.body.y + p.warpPower
    ensures p.warpPowerAvailable && p.body.dy < 0.0 ==> r.body.y == p.body.y - p.warpPower
    ensures p.body.dx == 0.0 ==> r.body.x == p.body.x
    ensures p.body.dy == 0.0 ==> r.body.y == p.body.y
    ensures p.body.dx == 0.0 && p.body.dy == 0.0 ==> r.body == p.body
  {
    if p.warpPowerAvailable then
      var b := p.body;
      p.(body := b.(y := b.y + DashOffset(b.dy, p.warpPower), x := b.x + DashOffset(b.dx, p.warpPower)),
         warpPowerAvailable := false)
    else p
  }

  /** A second dash before the warp is regained does nothing. */
  lemma JumpOnce(p: Player)
    ensures Jump(Jump(p)) == Jump(p)
  {
  }

  /** A dash keeps the kinematic invariant: it only moves the player. */
  lemma JumpPreservesInvariant(p: Player)
    requires KinematicInvariant(p.body)
    ensures KinematicInvariant(Jump(p).body)
  {
  }

  /** `update`: the base physics step, then the broadcast of the post-step
      position and velocity, returned here instead of sent as an event. */
  function Update(p: Player, t: real): (r: (Player, PlayerSnapshot))
    ensures r.0 == p.(body := UpdatePhysicalData(p.body, t))
    ensures r.1 == PlayerSnapshot(r.0.body.x, r.0.body.y, r.0.body.dx, r.0.body.dy)
  {
    var p' := p.(body := UpdatePhysicalData(p.body, t));
    (p', PlayerSnapshot(p'.body.x, p'.body.y, p'.body.dx, p'.body.dy))
  }

  /** A steering command on the player (kinematic semantics). */
  function Steer(p: Player, c: Command): (r: Player)
    ensures r == p.(body := KinematicMove(p.body, c))
  {
    p.(body := KinematicMove(p.body, c))
  }
}
