/** The game loop and roster of src/GameMode/BaseGameClass.ts: the pause,
    resume, win and restart transitions, the fixed tick
    (update → collide → cull), the cull filter, the creation of randomly
    placed entities and the state effect of key presses. */
module BaseGame {
  import opened Numeric
  import opened Options
  import opened Seqs
  import opened Entities
  import Players
  import Enemies
  import Collectables
  import Environment
  import opened Collision
  import Input

  /** The game's `_state` string: "running", "won" or "end". */
  datatype State = Running | Won | End

  /** The game's simulation state.  The drawing surface, menu, status bar
      and timers are not part of it. */
  datatype Game = Game(
    state: State, paused: bool, score: real, lastScore: real,
    playerConfig: Players.PlayerProps, player: Players.Player,
    enemies: seq<Enemies.Enemy>,
    collectables: seq<Collectables.Collectable>,
    hazards: seq<Environment.Hazard>)

  /** The fixed tick runs 200 times a second with `timeElapsed = 1/200`. */
  const TickSeconds: real := 1.0 / 200.0

  /** Random placement covers a 2000 × 2000 square. */
  const SpawnArea: real := 2000.0

  /** An entity no wider and no longer than a width × height canvas. */
  predicate FitsCanvas(e: Entity, width: real, height: real)
  {
    e.width <= width && e.length <= height
  }

  /** An entity lying wholly on a width × height canvas. */
  predicate OnCanvas(e: Entity, width: real, height: real)
  {
    0.0 <= e.x <= width - e.width && 0.0 <= e.y <= height - e.length
  }

  /** An entity strictly inside a width × height canvas, which
      `limitPosition` leaves where it is. */
  predicate InsideCanvas(e: Entity, width: real, height: real)
  {
    0.0 < e.x && e.x + e.width < width && 0.0 < e.y && e.y + e.length < height
  }

  /** `draw`: the player, then every enemy, collectable and hazard, is
      pulled back onto the width × height canvas with `limitPosition`.  Only
      positions change, and every entity that fits the canvas ends on it. */
  function Draw(g: Game, width: real, height: real): (r: Game)
    ensures r == g.(player := r.player, enemies := r.enemies, collectables := r.collectables, hazards := r.hazards)
    ensures r.player == g.player.(body := LimitPosition(g.player.body, width, height))
    ensures |r.enemies| == |g.enemies| && |r.collectables| == |g.collectables| && |r.hazards| == |g.hazards|
    ensures forall i :: 0 <= i < |g.enemies| ==>
              r.enemies[i] == g.enemies[i].(body := LimitPosition(g.enemies[i].body, width, height))
    ensures forall i :: 0 <= i < |g.collectables| ==>
              r.collectables[i] == g.collectables[i].(body := LimitPosition(g.collectables[i].body, width, height))
    ensures forall i :: 0 <= i < |g.hazards| ==>
              r.hazards[i] == g.hazards[i].(body := LimitPosition(g.hazards[i].body, width, height))
    ensures FitsCanvas(g.player.body, width, height) ==> OnCanvas(r.player.body, width, height)
    ensures forall i :: 0 <= i < |g.enemies| && FitsCanvas(g.enemies[i].body, width, height) ==>
              OnCanvas(r.enemies[i].body, width, height)
    ensures forall i :: 0 <= i < |g.collectables| && FitsCanvas(g.collectables[i].body, width, height) ==>
              OnCanvas(r.collectables[i].body, width, height)
    ensures forall i :: 0 <= i < |g.hazards| && FitsCanvas(g.hazards[i].body, width, height) ==>
              OnCanvas(r.hazards[i].body, width, height)
  {
    g.(player := g.player.(body := LimitPosition(g.player.body, width, height)),
       enemies := seq(|g.enemies|, i requires 0 <= i < |g.enemies| =>
                        g.enemies[i].(body := LimitPosition(g.enemies[i].body, width, height))),
       collectables := seq(|g.collectables|, i requires 0 <= i < |g.collectables| =>
                        g.collectables[i].(body := LimitPosition(g.collectables[i].body, width, height))),
       hazards := seq(|g.hazards|, i requires 0 <= i < |g.hazards| =>
                        g.hazards[i].(body := LimitPosition(g.hazards[i].body, width, height))))
  }

  /** Every entity of the game fits a width × height canvas. */
  predicate AllFit(g: Game, width: real, height: real)
  {
    && FitsCanvas(g.player.body, width, height)
    && (forall i :: 0 <= i < |g.enemies| ==> FitsCanvas(g.enemies[i].body, width, height))
    && (forall i :: 0 <= i < |g.collectables| ==> FitsCanvas(g.collectables[i].body, width, height))
    && (forall i :: 0 <= i < |g.hazards| ==> FitsCanvas(g.hazards[i].body, width, height))
  }

  /** Drawing settles: once everything fits the canvas, a second draw on the
      same canvas moves nothing. */
  lemma DrawSettles(g: Game, width: real, height: real)
    requires AllFit(g, width, height)
    ensures Draw(Draw(g, width, height), width, height) == Draw(g, width, height)
  {
    var d := Draw(g, width, height);
    var dd := Draw(d, width, height);
    LimitPositionIdempotent(g.player.body, width, height);
    forall i | 0 <= i < |g.enemies|
      ensures dd.enemies[i] == d.enemies[i]
    {
      LimitPositionIdempotent(g.enemies[i].body, width, height);
    }
    forall i | 0 <= i < |g.collectables|
      ensures dd.collectables[i] == d.collectables[i]
    {
      LimitPositionIdempotent(g.collectables[i].body, width, height);
    }
    forall i | 0 <= i < |g.hazards|
      ensures dd.hazards[i] == d.hazards[i]
    {
      LimitPositionIdempotent(g.hazards[i].body, width, height);
    }
    assert dd.enemies == d.enemies;
    assert dd.collectables == d.collectables;
    assert dd.hazards == d.hazards;
  }

  /** `#reset` on a game built for `config`, ending with the `draw` call
      that pulls the new player onto the width × height canvas: running, not
      paused, empty lists and zero score.  A configured position strictly
      inside the canvas is kept. */
  function NewGame(config: Players.PlayerProps, width: real, height: real): (g: Game)
    ensures g.state == Running && !g.paused
    ensures g.score == 0.0 && g.lastScore == 0.0
    ensures g.enemies == [] && g.collectables == [] && g.hazards == []
    ensures g.playerConfig == config
    ensures g.player == Players.NewPlayer(config).(body := LimitPosition(Players.NewPlayer(config).body, width, height))
    ensures FitsCanvas(Players.NewPlayer(config).body, width, height) ==> OnCanvas(g.player.body, width, height)
    ensures InsideCanvas(Players.NewPlayer(config).body, width, height) ==> g.player == Players.NewPlayer(config)
  {
    Draw(Game(Running, false, 0.0, 0.0, config, Players.NewPlayer(config), [], [], []), width, height)
  }

  /** The restart signal: the whole game is rebuilt from the stored player
      configuration, whatever state it was in, and drawn on the canvas. */
  function Restart(g: Game, width: real, height: real): (r: Game)
    ensures r.state == Running && !r.paused
    ensures r.score == 0.0 && r.lastScore == 0.0
    ensures r.enemies == [] && r.collectables == [] && r.hazards == []
    ensures r.playerConfig == g.playerConfig
    ensures r.player.body.health == g.playerConfig.main.health && r.player.warpPowerAvailable
    ensures InsideCanvas(Players.NewPlayer(g.playerConfig).body, width, height) ==>
              r.player.body.x == g.playerConfig.main.x && r.player.body.y == g.playerConfig.main.y
    ensures FitsCanvas(Players.NewPlayer(g.playerConfig).body, width, height) ==> OnCanvas(r.player.body, width, height)
    ensures r == NewGame(g.playerConfig, width, height)
  {
    NewGame(g.playerConfig, width, height)
  }

  /** The pause signal: the game is paused whatever its state. */
  function Pause(g: Game): (r: Game)
    ensures r.paused
    ensures r == g.(paused := true)
  {
    g.(paused := true)
  }

  /** The resume signal unpauses only a running game. */
  function Resume(g: Game): (r: Game)
    ensures g.state == Running ==> r == g.(paused := false)
    ensures g.state != Running ==> r == g
  {
    if g.state == Running then g.(paused := false) else g
  }

  /** The win signal (the delayed pause toggle that follows it is not modelled). */
  function Win(g: Game): (r: Game)
    ensures r.state == Won
    ensures r == g.(state := Won)
  {
    g.(state := Won)
  }

  /** `update`: the player steps first and publishes its snapshot, every
      enemy hears it and then runs its AI and step, then the collectables
      and hazards step, each list in order. */
  function UpdateAll(g: Game, t: real): (r: Game)
    ensures r == g.(player := r.player, enemies := r.enemies, collectables := r.collectables, hazards := r.hazards)
    ensures r.player == Players.Update(g.player, t).0
    ensures |r.enemies| == |g.enemies| && |r.collectables| == |g.collectables| && |r.hazards| == |g.hazards|
    ensures forall i :: 0 <= i < |g.enemies| ==>
              r.enemies[i] == Enemies.Update(Enemies.Receive(g.enemies[i], Players.Update(g.player, t).1), t)
    ensures forall i :: 0 <= i < |g.collectables| ==> r.collectables[i] == Collectables.Update(g.collectables[i], t)
    ensures forall i :: 0 <= i < |g.hazards| ==> r.hazards[i] == Environment.Update(g.hazards[i], t)
    ensures forall i :: 0 <= i < |r.enemies| ==>
              r.enemies[i].playerData == Players.PlayerSnapshot(r.player.body.x, r.player.body.y, r.player.body.dx, r.player.body.dy)
  {
    var stepped := Players.Update(g.player, t);
    var snapshot := stepped.1;
    g.(player := stepped.0,
       enemies := seq(|g.enemies|, i requires 0 <= i < |g.enemies| =>
                        Enemies.Update(Enemies.Receive(g.enemies[i], snapshot), t)),
       collectables := seq(|g.collectables|, i requires 0 <= i < |g.collectables| =>
                        Collectables.Update(g.collectables[i], t)),
       hazards := seq(|g.hazards|, i requires 0 <= i < |g.hazards| =>
                        Environment.Update(g.hazards[i], t)))
  }

  function EnemiesAsOthers(es: seq<Enemies.Enemy>): (os: seq<Other>)
    ensures |os| == |es| && forall i :: 0 <= i < |es| ==> os[i] == EnemyOf(es[i])
  {
    seq(|es|, i requires 0 <= i < |es| => EnemyOf(es[i]))
  }

  function CollectablesAsOthers(cs: seq<Collectables.Collectable>): (os: seq<Other>)
    ensures |os| == |cs| && forall i :: 0 <= i < |cs| ==> os[i] == CollectableOf(cs[i])
  {
    seq(|cs|, i requires 0 <= i < |cs| => CollectableOf(cs[i]))
  }

  function HazardsAsOthers(hs: seq<Environment.Hazard>): (os: seq<Other>)
    ensures |os| == |hs| && forall i :: 0 <= i < |hs| ==> os[i] == HazardOf(hs[i])
  {
    seq(|hs|, i requires 0 <= i < |hs| => HazardOf(hs[i]))
  }

  function AsEnemies(os: seq<Other>): (es: seq<Enemies.Enemy>)
    requires forall i :: 0 <= i < |os| ==> os[i].EnemyOf?
    ensures |es| == |os| && forall i :: 0 <= i < |os| ==> EnemyOf(es[i]) == os[i]
    ensures EnemiesAsOthers(es) == os
  {
    seq(|os|, i requires 0 <= i < |os| => os[i].enemy)
  }

  function AsCollectables(os: seq<Other>): (cs: seq<Collectables.Collectable>)
    requires forall i :: 0 <= i < |os| ==> os[i].CollectableOf?
    ensures |cs| == |os| && forall i :: 0 <= i < |os| ==> CollectableOf(cs[i]) == os[i]
    ensures CollectablesAsOthers(cs) == os
  {
    seq(|os|, i requires 0 <= i < |os| => os[i].item)
  }

  /** The whole roster in the order `detectCollision` visits it: enemies,
      then collectables, then hazards. */
  function Roster(g: Game): (os: seq<Other>)
    ensures |os| == |g.enemies| + |g.collectables| + |g.hazards|
  {
    EnemiesAsOthers(g.enemies) + CollectablesAsOthers(g.collectables) + HazardsAsOthers(g.hazards)
  }

  /** `detectCollision`: the player against every enemy, then every
      collectable, then every hazard.  Enemies and collectables are either
      left alone or, if they were alive, set to health 0; hazards are never
      changed; of the player only the health changes; and a player whose
      health is already ≤ 0 changes nothing. */
  function Collide(g: Game): (r: Game)
    ensures r == g.(player := r.player, score := r.score, enemies := r.enemies, collectables := r.collectables)
    ensures r.player == g.player.(body := g.player.body.(health := r.player.body.health))
    ensures |r.enemies| == |g.enemies| && |r.collectables| == |g.collectables|
    ensures forall i :: 0 <= i < |g.enemies| ==>
              r.enemies[i] == g.enemies[i] ||
              (Enemies.Alive(g.enemies[i]) && r.enemies[i] == g.enemies[i].(body := g.enemies[i].body.(health := 0.0)))
    ensures forall i :: 0 <= i < |g.collectables| ==>
              r.collectables[i] == g.collectables[i] ||
              (Collectables.Alive(g.collectables[i]) &&
               r.collectables[i] == g.collectables[i].(body := g.collectables[i].body.(health := 0.0)))
    ensures g.player.body.health <= 0.0 ==> r == g
    ensures Pass(g.player, g.score, Roster(g)) == Sweep(r.player, r.score, Roster(r))
  {
    var enemyOthers := EnemiesAsOthers(g.enemies);
    var collectableOthers := CollectablesAsOthers(g.collectables);
    var hazardOthers := HazardsAsOthers(g.hazards);
    var se := Pass(g.player, g.score, enemyOthers);
    var sc := Pass(se.player, se.score, collectableOthers);
    var sh := Pass(sc.player, sc.score, hazardOthers);
    EnemyPassShape(g.player, g.score, g.enemies);
    CollectablePassShape(se.player, se.score, g.collectables);
    HazardPassInert(sc.player, sc.score, hazardOthers);
    var r := g.(player := sh.player, score := sh.score,
                enemies := AsEnemies(se.others), collectables := AsCollectables(sc.others));
    CollideIsOnePass(g, se, sc, sh, r);
    r
  }

  /** A pass over the enemies leaves enemies, each one untouched or, if it
      was alive, at health 0. */
  lemma EnemyPassShape(p: Players.Player, score: real, es: seq<Enemies.Enemy>)
    ensures forall i :: 0 <= i < |es| ==> Pass(p, score, EnemiesAsOthers(es)).others[i].EnemyOf?
    ensures forall i :: 0 <= i < |es| ==>
              var e := AsEnemies(Pass(p, score, EnemiesAsOthers(es)).others)[i];
              e == es[i] || (Enemies.Alive(es[i]) && e == es[i].(body := es[i].body.(health := 0.0)))
    ensures p.body.health <= 0.0 ==> AsEnemies(Pass(p, score, EnemiesAsOthers(es)).others) == es
  {
    PassChanges(p, score, EnemiesAsOthers(es));
  }

  /** A pass over the collectables leaves collectables, each one untouched
      or, if it was alive, at health 0. */
  lemma CollectablePassShape(p: Players.Player, score: real, cs: seq<Collectables.Collectable>)
    ensures forall i :: 0 <= i < |cs| ==> Pass(p, score, CollectablesAsOthers(cs)).others[i].CollectableOf?
    ensures forall i :: 0 <= i < |cs| ==>
              var c := AsCollectables(Pass(p, score, CollectablesAsOthers(cs)).others)[i];
              c == cs[i] || (Collectables.Alive(cs[i]) && c == cs[i].(body := cs[i].body.(health := 0.0)))
    ensures p.body.health <= 0.0 ==> AsCollectables(Pass(p, score, CollectablesAsOthers(cs)).others) == cs
  {
    PassChanges(p, score, CollectablesAsOthers(cs));
  }

  /** Assembling the three passes of `Collide` into one pass over the roster. */
  lemma CollideIsOnePass(g: Game, se: Sweep, sc: Sweep, sh: Sweep, r: Game)
    requires se == Pass(g.player, g.score, EnemiesAsOthers(g.enemies))
    requires sc == Pass(se.player, se.score, CollectablesAsOthers(g.collectables))
    requires sh == Pass(sc.player, sc.score, HazardsAsOthers(g.hazards))
    requires sh.others == HazardsAsOthers(g.hazards)
    requires r.player == sh.player && r.score == sh.score && r.hazards == g.hazards
    requires EnemiesAsOthers(r.enemies) == se.others && CollectablesAsOthers(r.collectables) == sc.others
    ensures Pass(g.player, g.score, Roster(g)) == Sweep(r.player, r.score, Roster(r))
  {
    ThreePasses(g.player, g.score, EnemiesAsOthers(g.enemies), CollectablesAsOthers(g.collectables),
                HazardsAsOthers(g.hazards), se, sc, sh);
  }

  /** The bookkeeping of one collision phase: the score grows by exactly the
      values of the collectables picked up and the player's health drops by
      exactly the damages of the enemies destroyed. */
  lemma CollideAccounting(g: Game)
    ensures Collide(g).score == g.score + Gains(Roster(g), Roster(Collide(g)))
    ensures Collide(g).player.body.health == g.player.body.health - Losses(Roster(g), Roster(Collide(g)))
  {
    PassAccounting(g.player, g.score, Roster(g));
  }

  /** Enemies are resolved before collectables: when the enemy hits alone
      bring the player's health to ≤ 0, no collectable is picked up. */
  lemma EnemiesBeforeCollectables(g: Game)
    requires Pass(g.player, g.score, EnemiesAsOthers(g.enemies)).player.body.health <= 0.0
    ensures Collide(g).collectables == g.collectables
  {
    var se := Pass(g.player, g.score, EnemiesAsOthers(g.enemies));
    assert Pass(se.player, se.score, CollectablesAsOthers(g.collectables)).others == CollectablesAsOthers(g.collectables);
  }

  /** `updateEntitiesArrays`: a player with health ≤ 0 ends the game (state
      "end", paused) and leaves the lists alone; otherwise each list keeps,
      in order, exactly its entities with health > 0. */
  function Cull(g: Game): (r: Game)
    ensures g.player.body.health <= 0.0 ==> r == g.(state := End, paused := true)
    ensures g.player.body.health > 0.0 ==>
              r == g.(enemies := r.enemies, collectables := r.collectables, hazards := r.hazards)
    ensures g.player.body.health > 0.0 ==>
              (forall e :: e in r.enemies <==> e in g.enemies && Enemies.Alive(e)) &&
              (forall c :: c in r.collectables <==> c in g.collectables && Collectables.Alive(c)) &&
              (forall h :: h in r.hazards <==> h in g.hazards && Environment.Alive(h))
    ensures g.player.body.health > 0.0 ==>
              (forall e :: multiset(r.enemies)[e] == if Enemies.Alive(e) then multiset(g.enemies)[e] else 0) &&
              (forall c :: multiset(r.collectables)[c] == if Collectables.Alive(c) then multiset(g.collectables)[c] else 0) &&
              (forall h :: multiset(r.hazards)[h] == if Environment.Alive(h) then multiset(g.hazards)[h] else 0)
  {
    if g.player.body.health <= 0.0 then g.(state := End, paused := true)
    else
      g.(enemies := Filter(g.enemies, Enemies.Alive),
         collectables := Filter(g.collectables, Collectables.Alive),
         hazards := Filter(g.hazards, Environment.Alive))
  }

  /** Culling keeps the lists' order. */
  lemma CullKeepsOrder(g: Game)
    requires g.player.body.health > 0.0
    ensures IsSubsequence(Cull(g).enemies, g.enemies)
    ensures IsSubsequence(Cull(g).collectables, g.collectables)
    ensures IsSubsequence(Cull(g).hazards, g.hazards)
  {
    FilterIsSubsequence(g.enemies, Enemies.Alive);
    FilterIsSubsequence(g.collectables, Collectables.Alive);
    FilterIsSubsequence(g.hazards, Environment.Alive);
  }

  /** Culling twice is culling once. */
  lemma CullIdempotent(g: Game)
    ensures Cull(Cull(g)) == Cull(g)
  {
    if g.player.body.health > 0.0 {
      FilterIdempotent(g.enemies, Enemies.Alive);
      FilterIdempotent(g.collectables, Collectables.Alive);
      FilterIdempotent(g.hazards, Environment.Alive);
    }
  }

  /** Every entity left in the roster is alive. */
  predicate RosterAlive(g: Game)
  {
    && (forall e :: e in g.enemies ==> Enemies.Alive(e))
    && (forall c :: c in g.collectables ==> Collectables.Alive(c))
    && (forall h :: h in g.hazards ==> Environment.Alive(h))
  }

  /** The fixed tick body: nothing happens while paused; otherwise update,
      collide and cull run in that order, after which either the player is
      dead and the game has ended, or the player is alive, the state is
      unchanged and only living entities remain. */
  function Tick(g: Game): (r: Game)
    ensures g.paused ==> r == g
    ensures !g.paused ==>
              (r.player.body.health <= 0.0 && r.state == End && r.paused) ||
              (r.player.body.health > 0.0 && r.state == g.state && !r.paused && RosterAlive(r))
    ensures !g.paused ==> r == Cull(Collide(UpdateAll(g, TickSeconds)))
  {
    if g.paused then g else Cull(Collide(UpdateAll(g, TickSeconds)))
  }

  /** An unpaused tick moves the player by exactly one physics step: the
      collision and cull phases change at most its health. */
  lemma TickMovesPlayer(g: Game)
    requires !g.paused
    ensures var b := UpdatePhysicalData(g.player.body, TickSeconds);
            && Tick(g).player.body == b.(health := Tick(g).player.body.health)
            && Tick(g).player.warpPowerAvailable == g.player.warpPowerAvailable
  {
  }

  /** The score bookkeeping of an unpaused tick: the score grows by exactly
      the values of the collectables the player picks up from the updated
      roster, and the player's health after the tick is its stepped health
      less the damages of the enemies destroyed. */
  lemma TickAccounting(g: Game)
    requires !g.paused
    ensures var u := UpdateAll(g, TickSeconds);
            && Tick(g).score == g.score + Gains(Roster(u), Roster(Collide(u)))
            && Tick(g).player.body.health ==
                 NextHealth(g.player.body, TickSeconds) - Losses(Roster(u), Roster(Collide(u)))
  {
    CollideAccounting(UpdateAll(g, TickSeconds));
  }

  /** `n` consecutive ticks. */
  function Ticks(g: Game, n: nat): Game
    decreases n
  {
    if n == 0 then g else Ticks(Tick(g), n - 1)
  }

  /** While paused, any number of ticks changes nothing. */
  lemma {:induction false} PausedTicksInert(g: Game, n: nat)
    requires g.paused
    ensures Ticks(g, n) == g
    decreases n
  {
    if n > 0 {
      PausedTicksInert(g, n - 1);
    }
  }

  /** An ended game stays frozen: resuming does not unpause it, so no tick
      changes it until it is restarted. */
  lemma EndedGameIsFrozen(g: Game, n: nat)
    requires g.state == End && g.paused
    ensures Resume(g) == g
    ensures Ticks(Resume(g), n) == g
  {
    PausedTicksInert(g, n);
  }

  /** The state effect of a key press: steering and dashing act on the player
      even while the game is paused, Escape pauses, other keys do nothing. */
  function HandleKey(g: Game, key: string): (r: Game)
    ensures Input.KeyAction(key).None? ==> r == g
    ensures Input.KeyAction(key) == Some(Input.PauseGame) ==> r == Pause(g)
    ensures Input.KeyAction(key) == Some(Input.Dash) ==> r == g.(player := Players.Jump(g.player))
    ensures Input.KeyAction(key).Some? && Input.KeyAction(key).value.Steer? ==>
              r == g.(player := g.player.(body := KinematicMove(g.player.body, Input.KeyAction(key).value.command)))
  {
    match Input.KeyAction(key)
    case None => g
    case Some(Steer(c)) => g.(player := Players.Steer(g.player, c))
    case Some(Dash) => g.(player := Players.Jump(g.player))
    case Some(PauseGame) => Pause(g)
  }

  /** Pressing "w" makes a player with positive top speed fly toward
      smaller `y` along the vertical axis only. */
  lemma UpKeyFliesTowardSmallerY(g: Game)
    requires g.player.body.maxVelocity > 0.0
    ensures HandleKey(g, "w").player.body.dy < 0.0
    ensures HandleKey(g, "w").player.body.dx == 0.0
  {
    assert Input.KeyAction("w") == Some(Input.Steer(MoveDown));
  }

  /** `getConfigWithRandomXY`: a position drawn from two samples, inside the
      spawn square. */
  function RandomXY(rx: real, ry: real): (pos: (real, real))
    requires Sample(rx) && Sample(ry)
    ensures 0.0 <= pos.0 < SpawnArea && 0.0 <= pos.1 < SpawnArea
    ensures pos == (rx * SpawnArea, ry * SpawnArea)
  {
    (rx * SpawnArea, ry * SpawnArea)
  }

  /** `n` entities built at random positions, consuming two samples each
      (x first, then y), in order. */
  function CreateMany<T>(n: nat, rs: seq<real>, make: (real, real) -> T): (r: seq<T>)
    requires |rs| >= 2 * n && Samples(rs)
    ensures |r| == n
    ensures forall i :: 0 <= i < n ==> r[i] == make(rs[2 * i] * SpawnArea, rs[2 * i + 1] * SpawnArea)
    decreases n
  {
    if n == 0 then []
    else
      var pos := RandomXY(rs[0], rs[1]);
      var rest := CreateMany(n - 1, rs[2..], make);
      assert forall i :: 1 <= i < n ==> rest[i - 1] == make(rs[2 * i] * SpawnArea, rs[2 * i + 1] * SpawnArea);
      [make(pos.0, pos.1)] + rest
  }

  function PlaceEnemy(p: Enemies.EnemyProps, x: real, y: real): Enemies.EnemyProps
  {
    p.(main := p.main.(x := x, y := y))
  }

  function PlaceEntity(p: EntityProps, x: real, y: real): EntityProps
  {
    p.(x := x, y := y)
  }

  /** `_createEnemies`: `n` enemies from `config`, the i-th placed at the
      position drawn from samples 2i and 2i+1. */
  function CreateEnemies(n: nat, config: Enemies.EnemyProps, rs: seq<real>): (es: seq<Enemies.Enemy>)
    requires |rs| >= 2 * n && Samples(rs)
    ensures |es| == n
    ensures forall i :: 0 <= i < n ==>
              es[i] == Enemies.NewEnemy(PlaceEnemy(config, rs[2 * i] * SpawnArea, rs[2 * i + 1] * SpawnArea))
  {
    CreateMany(n, rs, (x, y) => Enemies.NewEnemy(PlaceEnemy(config, x, y)))
  }

  /** Created enemies lie in the spawn square and carry the configured damage. */
  lemma CreatedEnemiesInSquare(n: nat, config: Enemies.EnemyProps, rs: seq<real>)
    requires |rs| >= 2 * n && Samples(rs)
    ensures forall i :: 0 <= i < n ==>
              var e := CreateEnemies(n, config, rs)[i];
              0.0 <= e.body.x < SpawnArea && 0.0 <= e.body.y < SpawnArea && e.damage == config.damage
  {
    var es := CreateEnemies(n, config, rs);
    forall i | 0 <= i < n
      ensures 0.0 <= es[i].body.x < SpawnArea && 0.0 <= es[i].body.y < SpawnArea && es[i].damage == config.damage
    {
      assert Sample(rs[2 * i]) && Sample(rs[2 * i + 1]);
    }
  }

  /** `_createCollectables`: `n` collectables from `config`, the i-th placed
      at the position drawn from samples 2i and 2i+1. */
  function CreateCollectables(n: nat, config: Collectables.CollectableProps, rs: seq<real>)
    : (cs: seq<Collectables.Collectable>)
    requires |rs| >= 2 * n && Samples(rs)
    ensures |cs| == n
    ensures forall i :: 0 <= i < n ==>
              cs[i] == Collectables.NewCollectable(config.(base := PlaceEntity(config.base, rs[2 * i] * SpawnArea, rs[2 * i + 1] * SpawnArea)))
  {
    CreateMany(n, rs, (x, y) => Collectables.NewCollectable(config.(base := PlaceEntity(config.base, x, y))))
  }

  /** Created collectables lie in the spawn square and carry the configured value. */
  lemma CreatedCollectablesInSquare(n: nat, config: Collectables.CollectableProps, rs: seq<real>)
    requires |rs| >= 2 * n && Samples(rs)
    ensures forall i :: 0 <= i < n ==>
              var c := CreateCollectables(n, config, rs)[i];
              0.0 <= c.body.x < SpawnArea && 0.0 <= c.body.y < SpawnArea && c.value == config.value
  {
    var cs := CreateCollectables(n, config, rs);
    forall i | 0 <= i < n
      ensures 0.0 <= cs[i].body.x < SpawnArea && 0.0 <= cs[i].body.y < SpawnArea && cs[i].value == config.value
    {
      assert Sample(rs[2 * i]) && Sample(rs[2 * i + 1]);
    }
  }

  /** `_createEnvironment`: `n` plain hazards from `config`, the i-th placed
      at the position drawn from samples 2i and 2i+1. */
  function CreateEnvironment(n: nat, config: Environment.EnvironmentProps, rs: seq<real>)
    : (hs: seq<Environment.Hazard>)
    requires |rs| >= 2 * n && Samples(rs)
    ensures |hs| == n
    ensures forall i :: 0 <= i < n ==>
              hs[i] == Environment.NewEnvironmentEntity(config.(base := PlaceEntity(config.base, rs[2 * i] * SpawnArea, rs[2 * i + 1] * SpawnArea)))
  {
    CreateMany(n, rs, (x, y) => Environment.NewEnvironmentEntity(config.(base := PlaceEntity(config.base, x, y))))
  }

  /** Created hazards lie in the spawn square and do no damage, whatever the
      configured damage. */
  lemma CreatedHazardsInSquare(n: nat, config: Environment.EnvironmentProps, rs: seq<real>)
    requires |rs| >= 2 * n && Samples(rs)
    ensures forall i :: 0 <= i < n ==>
              var h := CreateEnvironment(n, config, rs)[i];
              0.0 <= h.body.x < SpawnArea && 0.0 <= h.body.y < SpawnArea && h.damage == 0.0
  {
    var hs := CreateEnvironment(n, config, rs);
    forall i | 0 <= i < n
      ensures 0.0 <= hs[i].body.x < SpawnArea && 0.0 <= hs[i].body.y < SpawnArea && hs[i].damage == 0.0
    {
      assert Sample(rs[2 * i]) && Sample(rs[2 * i + 1]);
    }
  }

  /** The state effect of a presentation frame: `nextFrame` draws only
      when the game is not paused. */
  function FrameClamp(g: Game, width: real, height: real): (r: Game)
    ensures g.paused ==> r == g
    ensures !g.paused ==> r == Draw(g, width, height)
  {
    if g.paused then g else Draw(g, width, height)
  }

  /** Frames settle: when everything fits the canvas, a second unpaused
      frame on the same canvas changes nothing. */
  lemma FrameClampSettles(g: Game, width: real, height: real)
    requires AllFit(g, width, height)
    ensures FrameClamp(FrameClamp(g, width, height), width, height) == FrameClamp(g, width, height)
  {
    DrawSettles(g, width, height);
  }
}
