/** The pursuing enemy (src/Entities/Enemy.ts): a kinematic actor with a
    damage value, a spawn flag and the last player position it heard of,
    steered by a floor-based, horizontal-first decision table. */
module Enemies {
  import opened Numeric
  import opened Options
  import opened Entities
  import opened Players

  /** The configuration of an enemy (`EnemyProps`). */
  datatype EnemyProps = EnemyProps(
    main: MainProps, damage: real, timeTakenToSpawn: real, intelligenceLevel: real)

  datatype Enemy = Enemy(
    body: Entity, damage: real, spawnedFully: bool, intelligenceLevel: real,
    playerData: PlayerSnapshot)

  /** The `Enemy` constructor: a kinematic actor with the configured damage,
      not yet fully spawned, that has heard of the player at the origin. */
  function NewEnemy(p: EnemyProps): (r: Enemy)
    ensures r.body == NewMainEntity(p.main)
    ensures r.damage == p.damage && !r.spawnedFully
    ensures r.intelligenceLevel == p.intelligenceLevel
    ensures r.playerData == PlayerSnapshot(0.0, 0.0, 0.0, 0.0)
  {
    Enemy(NewMainEntity(p.main), p.damage, false, p.intelligenceLevel, PlayerSnapshot(0.0, 0.0, 0.0, 0.0))
  }

  /** The enemy hears a player position broadcast. */
  function Receive(e: Enemy, s: PlayerSnapshot): (r: Enemy)
    ensures r == e.(playerData := s)
  {
    e.(playerData := s)
  }

  /** `Math.floor` as a real. */
  function Floor(v: real): (f: real)
    ensures f == f.Floor as real
    ensures f <= v < f + 1.0
  {
    v.Floor as real
  }

  /** The four tests of `ai`, each comparing a floored edge of the enemy's own
      footprint with the floored player coordinate. */
  predicate FarRight(e: Enemy) { Floor(e.body.x) - e.body.width > Floor(e.playerData.x) }
  predicate FarLeft(e: Enemy) { Floor(e.body.x) + e.body.width < Floor(e.playerData.x) }
  predicate FarBelow(e: Enemy) { Floor(e.body.y) - e.body.length > Floor(e.playerData.y) }
  predicate FarAbove(e: Enemy) { Floor(e.body.y) + e.body.length < Floor(e.playerData.y) }

  /** The decision table of `ai`: horizontal tests first, vertical ones only
      when both horizontal tests fail, and no command when all four fail. */
  function Decide(e: Enemy): (c: Option<Command>)
    ensures c == Some(MoveLeft) <==> FarRight(e)
    ensures c == Some(MoveRight) <==> !FarRight(e) && FarLeft(e)
    ensures c == Some(MoveDown) <==> !FarRight(e) && !FarLeft(e) && FarBelow(e)
    ensures c == Some(MoveUp) <==> !FarRight(e) && !FarLeft(e) && !FarBelow(e) && FarAbove(e)
    ensures c == None <==> !FarRight(e) && !FarLeft(e) && !FarBelow(e) && !FarAbove(e)
  {
    if FarRight(e) then Some(MoveLeft)
    else if FarLeft(e) then Some(MoveRight)
    else if FarBelow(e) then Some(MoveDown)
    else if FarAbove(e) then Some(MoveUp)
    else None
  }

  /** `ai`, without its self-rescheduling timer: at most one kinematic
      command, the one the decision table picks. */
  function Ai(e: Enemy): (r: Enemy)
    ensures Decide(e).None? ==> r == e
    ensures Decide(e).Some? ==> r == e.(body := KinematicMove(e.body, Decide(e).value))
  {
    match Decide(e)
    case None => e
    case Some(c) => e.(body := KinematicMove(e.body, c))
  }

  /** Pursuit soundness: when the enemy's extents are non-negative and it
      can move, the velocity on the chosen axis points toward the player
      and the other axis is stopped. */
  lemma {:induction false} AiPursues(e: Enemy)
    requires e.body.width >= 0.0 && e.body.length >= 0.0 && e.body.maxVelocity > 0.0
    ensures FarRight(e) ==> e.playerData.x < e.body.x && Ai(e).body.dx < 0.0 && Ai(e).body.dy == 0.0
    ensures !FarRight(e) && FarLeft(e) ==> e.body.x < e.playerData.x && Ai(e).body.dx > 0.0 && Ai(e).body.dy == 0.0
    ensures !FarRight(e) && !FarLeft(e) && FarBelow(e) ==>
              e.playerData.y < e.body.y && Ai(e).body.dy < 0.0 && Ai(e).body.dx == 0.0
    ensures !FarRight(e) && !FarLeft(e) && !FarBelow(e) && FarAbove(e) ==>
              e.body.y < e.playerData.y && Ai(e).body.dy > 0.0 && Ai(e).body.dx == 0.0
  {
    var ex, ey := e.body.x.Floor, e.body.y.Floor;
    var px, py := e.playerData.x.Floor, e.playerData.y.Floor;
    if FarRight(e) {
      assert ex > px;
      assert e.playerData.x < (px + 1) as real <= ex as real <= e.body.x;
    } else if FarLeft(e) {
      assert ex < px;
      assert e.body.x < (ex + 1) as real <= px as real <= e.playerData.x;
    } else if FarBelow(e) {
      assert ey > py;
      assert e.playerData.y < (py + 1) as real <= ey as real <= e.body.y;
    } else if FarAbove(e) {
      assert ey < py;
      assert e.body.y < (ey + 1) as real <= py as real <= e.playerData.y;
    }
  }

  /** The decision depends on positions only, never on velocity, so running
      the AI twice on the same state is running it once. */
  lemma AiIdempotent(e: Enemy)
    ensures Ai(Ai(e)) == Ai(e)
  {
  }

  /** An extra `ai()` call from the one-second timer, made between ticks on
      the state `e` the last step left, followed by the next tick's snapshot
      `s` and the tick's own `ai()` call.  When the tick's decision issues a
      command, the extra call leaves no trace; when it issues none, the
      velocity the extra call chose survives into the step.  The model's
      ticks make only the per-tick call, so they do not cover this second
      case. */
  lemma TimerCallBetweenTicks(e: Enemy, s: PlayerSnapshot)
    ensures Decide(Receive(e, s)).Some? ==> Ai(Receive(Ai(e), s)) == Ai(Receive(e, s))
    ensures Decide(Receive(e, s)).None? ==> Ai(Receive(Ai(e), s)) == Receive(Ai(e), s)
  {
    assert Decide(Receive(Ai(e), s)) == Decide(Receive(e, s));
  }

  /** The worked example: an enemy at (200, 200) of width 50 with the player
      last seen at (400, 200) moves right at full speed. */
  lemma AiExample(e: Enemy)
    requires e.body.x == 200.0 && e.body.y == 200.0 && e.body.width == 50.0 && e.body.length == 50.0
    requires e.playerData.x == 400.0 && e.playerData.y == 200.0
    ensures Decide(e) == Some(MoveRight)
    ensures Ai(e).body.dx == e.body.maxVelocity && Ai(e).body.dy == 0.0
  {
    assert Floor(200.0) == 200.0;
    assert Floor(400.0) == 400.0;
  }

  /** The key codes `aiRandom` draws from, in table order. */
  const RandomMoves: seq<int> := [37, 39, 38, 40]

  /** The command `aiRandom` issues for a key code. */
  function RandomCommand(code: int): (c: Option<Command>)
  {
    if code == 37 then Some(MoveLeft)
    else if code == 39 then Some(MoveRight)
    else if code == 38 then Some(MoveDown)
    else if code == 40 then Some(MoveUp)
    else None
  }

  /** `aiRandom` with its `Math.random` sample `r`: the index
      `floor(r * 4)` selects moveLeft, moveRight, moveDown or moveUp; a
      living enemy obeys it and one with health ≤ 0 does nothing. */
  function AiRandom(e: Enemy, r: real): (res: Enemy)
    requires Sample(r)
    ensures e.body.health <= 0.0 ==> res == e
    ensures e.body.health > 0.0 && r < 0.25 ==> res == e.(body := KinematicMove(e.body, MoveLeft))
    ensures e.body.health > 0.0 && 0.25 <= r < 0.5 ==> res == e.(body := KinematicMove(e.body, MoveRight))
    ensures e.body.health > 0.0 && 0.5 <= r < 0.75 ==> res == e.(body := KinematicMove(e.body, MoveDown))
    ensures e.body.health > 0.0 && 0.75 <= r ==> res == e.(body := KinematicMove(e.body, MoveUp))
  {
    var index := (r * 4.0).Floor;
    if e.body.health > 0.0 then
      match RandomCommand(RandomMoves[index])
      case Some(c) => e.(body := KinematicMove(e.body, c))
      case None => e
    else e
  }

  /** `update`: the AI decision is applied first, then the physics step. */
  function Update(e: Enemy, t: real): (r: Enemy)
    ensures r == Ai(e).(body := UpdatePhysicalData(Ai(e).body, t))
    ensures r.damage == e.damage && r.playerData == e.playerData
  {
    var decided := Ai(e);
    decided.(body := UpdatePhysicalData(decided.body, t))
  }

  /** The AI applies the command its decision table picks. */
  lemma AiIssues(e: Enemy, c: Command)
    requires Decide(e) == Some(c)
    ensures Ai(e) == e.(body := KinematicMove(e.body, c))
  {
  }

  /** The order inside `update` matters: the AI runs before the physics
      step, so an enemy whose AI issues `c` and that survives the step moves
      in that same tick with the velocity `c` sets (toward the remembered
      player, by `AiPursues`), not with the velocity it had before. */
  lemma UpdateFollowsCommand(e: Enemy, t: real, c: Command)
    requires KinematicInvariant(e.body) && NextHealth(e.body, t) >= 0.0
    requires Decide(e) == Some(c)
    ensures Update(e, t).body.x == e.body.x + KinematicMove(e.body, c).dx * t
    ensures Update(e, t).body.y == e.body.y + KinematicMove(e.body, c).dy * t
  {
    var d := KinematicMove(e.body, c);
    AiIssues(e, c);
    KinematicMovePreservesInvariant(e.body, c);
    assert NextHealth(d, t) == NextHealth(e.body, t);
    KinematicStepTranslates(d, t);
  }

  /** When no pursuit test fires, a surviving enemy keeps moving with the
      velocity it already had. */
  lemma UpdateWithoutCommand(e: Enemy, t: real)
    requires KinematicInvariant(e.body) && NextHealth(e.body, t) >= 0.0
    requires Decide(e).None?
    ensures Update(e, t).body.x == e.body.x + e.body.dx * t && Update(e, t).body.y == e.body.y + e.body.dy * t
  {
    assert Ai(e) == e;
    KinematicStepTranslates(e.body, t);
  }

  /** The pursuit example in one tick: an enemy far to the right of the
      remembered player, which survives the step, ends the tick a full step
      to the left, at x − maxVelocity·t, on the same row. */
  lemma UpdateStepsLeftTowardPlayer(e: Enemy, t: real)
    requires KinematicInvariant(e.body) && NextHealth(e.body, t) >= 0.0
    requires FarRight(e)
    ensures Update(e, t).body.x == e.body.x - e.body.maxVelocity * t
    ensures Update(e, t).body.y == e.body.y
  {
    UpdateFollowsCommand(e, t, MoveLeft);
  }

  /** The cull predicate for enemies. */
  predicate Alive(e: Enemy)
  {
    e.body.health > 0.0
  }
}
