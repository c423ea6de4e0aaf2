/** The classic game mode of src/GameMode/ClassicGame.ts: the entity
    configurations, the initial roster, the once-a-second refill and
    "super" spawn bookkeeping, and the meteor waves. */
module ClassicGame {
  import opened Numeric
  import opened Entities
  import Players
  import Enemies
  import Collectables
  import Environment
  import opened BaseGame

  /** The positions the configuration constants draw once, when the module
      is loaded: super enemies, super collectables and meteors are always
      created at these positions (they are never re-placed at random). */
  datatype LoadTime = LoadTime(
    superEnemyX: real, superEnemyY: real,
    superCollectableX: real, superCollectableY: real,
    meteorX: real)

  /** `enemyConfig`; its position is replaced at every use. */
  function EnemyConfig(): Enemies.EnemyProps
  {
    Enemies.EnemyProps(
      MainProps("enemy", Rectangle, 0.0, 0.0, 60.0, 60.0, 100.0, 100.0, -10.0, 50.0, 0.5),
      25.0, 2.0, 1.0)
  }

  /** `superEnemyConfig`. */
  function SuperEnemyConfig(l: LoadTime): Enemies.EnemyProps
  {
    Enemies.EnemyProps(
      MainProps("superEnemy", Rectangle, l.superEnemyX, l.superEnemyY, 150.0, 150.0, 100.0, 100.0, -10.0, 130.0, 0.5),
      100.0, 2.0, 10.0)
  }

  /** `collectableConfig`; its position is replaced at every use. */
  function CollectableConfig(): Collectables.CollectableProps
  {
    Collectables.CollectableProps(
      EntityProps("collectable", Rectangle, 0.0, 0.0, 50.0, 50.0, 1.0, 100.0, 100.0,
                  0.0, 0.0, 0.0, 0.0, 100.0, 0.0, 0.0, 0.0, 0.5, 0.0),
      10.0)
  }

  /** `superCollectableConfig`. */
  function SuperCollectableConfig(l: LoadTime): Collectables.CollectableProps
  {
    Collectables.CollectableProps(
      EntityProps("superCollectable", Rectangle, l.superCollectableX, l.superCollectableY, 100.0, 100.0, 1.0, 100.0, 100.0,
                  0.0, 0.0, 0.0, 0.0, 100.0, 0.0, 0.0, 0.0, 0.5, -10.0),
      100.0)
  }

  /** `meteorConfig`; its drift is replaced by every meteor's own. */
  function MeteorConfig(l: LoadTime): Environment.EnvironmentProps
  {
    Environment.EnvironmentProps(
      EntityProps("meteor", Rectangle, l.meteorX, 0.0, 50.0, 50.0, 100.0, 100.0, 100.0,
                  100.0, 500.0, 50.0, 50.0, 800.0, 100.0, 0.0, 100.0, 0.5, -130.0),
      130.0)
  }

  /** The player configuration the application starts every game with. */
  function AppPlayerConfig(): Players.PlayerProps
  {
    Players.PlayerProps(
      MainProps("player", Rectangle, 100.0, 100.0, 50.0, 50.0, 100.0, 100.0, 5.0, 500.0, 0.5),
      0.0, 3.0, 300.0, 3.0)
  }

  /** The classic game: the base game, whether a super entity was ever
      spawned (the signal that selects the dramatic music), and the
      load-time positions. */
  datatype Classic = Classic(game: Game, superThings: bool, loaded: LoadTime)

  /** The `GameModeClassic` constructor with its 54 placement samples: the
      reset game, drawn on the width × height canvas, plus 2 enemies and then
      25 collectables (placed after that draw, so not yet clamped). */
  function NewClassic(config: Players.PlayerProps, loaded: LoadTime, width: real, height: real, rs: seq<real>): (c: Classic)
    requires |rs| >= 54 && Samples(rs)
    ensures |c.game.enemies| == 2 && |c.game.collectables| == 25 && c.game.hazards == []
    ensures c.game.state == Running && !c.game.paused
    ensures c.game.score == 0.0 && c.game.lastScore == 0.0
    ensures c.game.player == Players.NewPlayer(config).(body := LimitPosition(Players.NewPlayer(config).body, width, height))
    ensures !c.superThings && c.loaded == loaded
    ensures forall i :: 0 <= i < 2 ==> c.game.enemies[i].damage == 25.0
    ensures forall i :: 0 <= i < 25 ==> c.game.collectables[i].value == 10.0
    ensures c.game == NewGame(config, width, height).(enemies := CreateEnemies(2, EnemyConfig(), rs[..4]), collectables := CreateCollectables(25, CollectableConfig(), rs[4..54]))
  {
    var es := CreateEnemies(2, EnemyConfig(), rs[..4]);
    var cs := CreateCollectables(25, CollectableConfig(), rs[4..54]);
    CreatedEnemiesInSquare(2, EnemyConfig(), rs[..4]);
    CreatedCollectablesInSquare(25, CollectableConfig(), rs[4..54]);
    Classic(NewGame(config, width, height).(enemies := es, collectables := cs), false, loaded)
  }

  /** A game started from the application's configuration: the player sits
      at rest with full health 100 and a 300-unit dash ready, facing 2
      enemies and 25 collectables; on a canvas wider and longer than 150 it
      sits at (100, 100), and on one at least 50 × 50 it is on the canvas. */
  lemma AppStart(loaded: LoadTime, width: real, height: real, rs: seq<real>)
    requires |rs| >= 54 && Samples(rs)
    ensures var g := NewClassic(AppPlayerConfig(), loaded, width, height, rs).game;
            && (width > 150.0 && height > 150.0 ==> g.player.body.x == 100.0 && g.player.body.y == 100.0)
            && (width >= 50.0 && height >= 50.0 ==> OnCanvas(g.player.body, width, height))
            && g.player.body.health == 100.0 && g.player.body.health == g.player.body.maxHealth
            && g.player.warpPowerAvailable && g.player.warpPower == 300.0
            && KinematicInvariant(g.player.body)
            && |g.enemies| == 2 && |g.collectables| == 25
  {
  }

  /** The score gain since the last super spawn calls for another one. */
  predicate SuperDue(g: Game)
  {
    g.score - g.lastScore > 100.0
  }

  /** The spawn condition only looks at the score and `lastScore`, and a
      higher score never withdraws a due spawn. */
  lemma SuperDueUpward(g: Game, h: Game)
    requires h.lastScore == g.lastScore && h.score >= g.score
    ensures SuperDue(g) ==> SuperDue(h)
    ensures h.score == g.score ==> (SuperDue(g) <==> SuperDue(h))
  {
  }

  /** What the configurations build: regular enemies of 60 × 60 hitting for
      25 at speed 50, super enemies of 150 × 150 hitting for 100 at speed 130,
      collectables of 50 × 50 worth 10, super collectables of 100 × 100 worth
      100 at their load-time position, and 50 × 50 meteors dropped from the
      top at their load-time x.  Every enemy starts within the kinematic
      invariant. */
  lemma ConfiguredEntities(l: LoadTime)
    ensures var e := Enemies.NewEnemy(EnemyConfig());
            && e.damage == 25.0 && e.body.width == 60.0 && e.body.length == 60.0
            && e.body.maxVelocity == 50.0 && e.body.health == 100.0 && e.intelligenceLevel == 1.0
            && KinematicInvariant(e.body)
    ensures var e := Enemies.NewEnemy(SuperEnemyConfig(l));
            && e.damage == 100.0 && e.body.width == 150.0 && e.body.length == 150.0
            && e.body.maxVelocity == 130.0 && e.body.health == 100.0 && e.intelligenceLevel == 10.0
            && e.body.x == l.superEnemyX && e.body.y == l.superEnemyY
            && KinematicInvariant(e.body)
    ensures var c := Collectables.NewCollectable(CollectableConfig());
            c.value == 10.0 && c.body.width == 50.0 && c.body.length == 50.0 && c.body.health == 100.0
    ensures var c := Collectables.NewCollectable(SuperCollectableConfig(l));
            && c.value == 100.0 && c.body.width == 100.0 && c.body.length == 100.0
            && c.body.x == l.superCollectableX && c.body.y == l.superCollectableY
    ensures MeteorConfig(l).base.x == l.meteorX && MeteorConfig(l).base.y == 0.0
    ensures MeteorConfig(l).base.width == 50.0 && MeteorConfig(l).base.length == 50.0
    ensures MeteorConfig(l).damage == 130.0
  {
  }

  /** The super-spawn half of `#regularUpdate`: when the score has grown by
      more than 100 since `lastScore`, `lastScore` becomes score + 90, one
      super collectable and one super enemy (at their load-time positions)
      are appended, and the super flag is set; otherwise nothing changes. */
  function SuperSpawn(c: Classic): (r: Classic)
    ensures !SuperDue(c.game) ==> r == c
    ensures SuperDue(c.game) ==>
              && r.game == c.game.(lastScore := r.game.lastScore, collectables := r.game.collectables,
                                   enemies := r.game.enemies)
              && r.game.lastScore == c.game.score + 90.0
              && r.game.collectables == c.game.collectables + [Collectables.NewCollectable(SuperCollectableConfig(c.loaded))]
              && r.game.enemies == c.game.enemies + [Enemies.NewEnemy(SuperEnemyConfig(c.loaded))]
              && r.superThings && r.loaded == c.loaded
  {
    if SuperDue(c.game) then
      var g := c.game;
      Classic(g.(lastScore := g.score + 90.0,
                 collectables := g.collectables + [Collectables.NewCollectable(SuperCollectableConfig(c.loaded))],
                 enemies := g.enemies + [Enemies.NewEnemy(SuperEnemyConfig(c.loaded))]),
              true, c.loaded)
    else c
  }

  /** `#regularUpdate` (its music selection aside), with the samples each
      refill draws (`rc` for the collectables, `re` for the enemies):
      collectables are refilled first, then enemies, then the super spawn is
      checked.  It runs whether or not the game is paused or over, and
      changes only the two lists, `lastScore` and the super flag. */
  function RegularUpdate(c: Classic, rc: seq<real>, re: seq<real>): (r: Classic)
    requires |rc| >= 10 && Samples(rc) && |re| >= 4 && Samples(re)
    ensures r.loaded == c.loaded
    ensures r.game == c.game.(enemies := r.game.enemies, collectables := r.game.collectables,
                              lastScore := r.game.lastScore)
    ensures SuperDue(c.game) ==> r.game.lastScore == c.game.score + 90.0
    ensures !SuperDue(c.game) ==> r.game.lastScore == c.game.lastScore
    ensures r.superThings == (c.superThings || SuperDue(c.game))
    ensures r.game.collectables == RefillCollectables(c.game.collectables, rc) +
              (if SuperDue(c.game) then [Collectables.NewCollectable(SuperCollectableConfig(c.loaded))] else [])
    ensures r.game.enemies == RefillEnemies(c.game.enemies, re) +
              (if SuperDue(c.game) then [Enemies.NewEnemy(SuperEnemyConfig(c.loaded))] else [])
  {
    var g := c.game;
    SuperSpawn(c.(game := g.(collectables := RefillCollectables(g.collectables, rc),
                             enemies := RefillEnemies(g.enemies, re))))
  }

  /** The refill counts: 5 collectables are appended iff fewer than 10
      remain and 2 enemies iff fewer than 5 remain, plus one of each on a
      super spawn; the existing entries are kept in place. */
  lemma RegularUpdateCounts(c: Classic, rc: seq<real>, re: seq<real>)
    requires |rc| >= 10 && Samples(rc) && |re| >= 4 && Samples(re)
    ensures var r := RegularUpdate(c, rc, re).game;
            && |r.collectables| ==
                 |c.game.collectables| + (if |c.game.collectables| < 10 then 5 else 0) + (if SuperDue(c.game) then 1 else 0)
            && |r.enemies| ==
                 |c.game.enemies| + (if |c.game.enemies| < 5 then 2 else 0) + (if SuperDue(c.game) then 1 else 0)
            && r.collectables[..|c.game.collectables|] == c.game.collectables
            && r.enemies[..|c.game.enemies|] == c.game.enemies
  {
    var g := c.game;
    var r := RegularUpdate(c, rc, re).game;
    GrownBy(g.collectables, RefillCollectables(g.collectables, rc),
            if SuperDue(g) then [Collectables.NewCollectable(SuperCollectableConfig(c.loaded))] else [],
            r.collectables);
    GrownBy(g.enemies, RefillEnemies(g.enemies, re),
            if SuperDue(g) then [Enemies.NewEnemy(SuperEnemyConfig(c.loaded))] else [],
            r.enemies);
  }

  /** Appending to a sequence that extends `p` keeps `p` as its prefix. */
  lemma GrownBy<T>(p: seq<T>, s: seq<T>, t: seq<T>, r: seq<T>)
    requires |p| <= |s| && s[..|p|] == p && r == s + t
    ensures |r| == |s| + |t| && r[..|p|] == p
  {
    assert r[..|p|] == s[..|p|];
  }

  /** The collectable half of the refill: 5 collectables of value 10 at
      random positions are appended when fewer than 10 remain. */
  function RefillCollectables(cs: seq<Collectables.Collectable>, rs: seq<real>): (r: seq<Collectables.Collectable>)
    requires |rs| >= 10 && Samples(rs)
    ensures |r| == |cs| + (if |cs| < 10 then 5 else 0)
    ensures r[..|cs|] == cs
    ensures |cs| < 10 ==> r[|cs|..] == CreateCollectables(5, CollectableConfig(), rs[..10])
    ensures forall k :: |cs| <= k < |r| ==> r[k].value == 10.0 && 0.0 <= r[k].body.x < SpawnArea && 0.0 <= r[k].body.y < SpawnArea
  {
    if |cs| < 10 then
      CreatedCollectablesInSquare(5, CollectableConfig(), rs[..10]);
      cs + CreateCollectables(5, CollectableConfig(), rs[..10])
    else cs
  }

  /** The enemy half of the refill: 2 enemies of damage 25 at random
      positions are appended when fewer than 5 remain. */
  function RefillEnemies(es: seq<Enemies.Enemy>, rs: seq<real>): (r: seq<Enemies.Enemy>)
    requires |rs| >= 4 && Samples(rs)
    ensures |r| == |es| + (if |es| < 5 then 2 else 0)
    ensures r[..|es|] == es
    ensures |es| < 5 ==> r[|es|..] == CreateEnemies(2, EnemyConfig(), rs[..4])
    ensures forall k :: |es| <= k < |r| ==> r[k].damage == 25.0 && 0.0 <= r[k].body.x < SpawnArea && 0.0 <= r[k].body.y < SpawnArea
  {
    if |es| < 5 then
      CreatedEnemiesInSquare(2, EnemyConfig(), rs[..4]);
      es + CreateEnemies(2, EnemyConfig(), rs[..4])
    else es
  }

  /** After a super spawn at score s, the next one needs a score above
      s + 190 (not s + 100): the bookkeeping adds 90 to `lastScore`. */
  lemma NextSuperSpawnThreshold(c: Classic, rc: seq<real>, re: seq<real>, later: real)
    requires |rc| >= 10 && Samples(rc) && |re| >= 4 && Samples(re)
    requires SuperDue(c.game)
    ensures SuperDue(RegularUpdate(c, rc, re).game.(score := later)) <==> later > c.game.score + 190.0
  {
  }

  /** Ticks never move `lastScore`, so between two refills the threshold
      only depends on the score. */
  lemma TickKeepsLastScore(g: Game)
    ensures Tick(g).lastScore == g.lastScore
  {
  }

  /** The meteor wave from the loop `for (i = 0; i < Math.random() * 5; ++i)`,
      whose bound is drawn again at every test.  The samples are consumed
      in call order: one for the test, then length, width and drift for the
      meteor it creates.  The count never exceeds 5. */
  function Wave(config: Environment.EnvironmentProps, i: nat, rs: seq<real>): (w: seq<Environment.Hazard>)
    requires i <= 5 && |rs| >= 4 * (5 - i) + 1 && Samples(rs)
    ensures |w| <= 5 - i
    decreases 5 - i
  {
    if (i as real) < rs[0] * 5.0 then
      [Environment.NewMeteor(config, rs[1], rs[2], rs[3])] + Wave(config, i + 1, rs[4..])
    else []
  }

  /** Every meteor of a wave starts at its configuration's position, has
      sides in [50, 100), drifts at +-100 and does no damage on contact. */
  lemma {:induction false} WaveMeteors(config: Environment.EnvironmentProps, i: nat, rs: seq<real>)
    requires i <= 5 && |rs| >= 4 * (5 - i) + 1 && Samples(rs)
    ensures forall k :: 0 <= k < |Wave(config, i, rs)| ==>
              var m := Wave(config, i, rs)[k];
              m.body.x == config.base.x && m.body.y == config.base.y &&
              50.0 <= m.body.width < 100.0 && 50.0 <= m.body.length < 100.0 &&
              (m.body.dx == -100.0 || m.body.dx == 100.0) && m.damage == 0.0
    decreases 5 - i
  {
    if (i as real) < rs[0] * 5.0 {
      WaveMeteors(config, i + 1, rs[4..]);
    }
  }

  /** One passing test of the meteor loop after `i` meteors: the wave built
      so far, the next meteor and the wave from the following samples make
      up the whole wave. */
  lemma WaveStep(config: Environment.EnvironmentProps, built: seq<Environment.Hazard>, i: nat, rs: seq<real>)
    requires i <= 5 && |rs| >= 21 && Samples(rs)
    requires built + Wave(config, i, rs[4 * i..]) == Wave(config, 0, rs)
    requires (i as real) < rs[4 * i] * 5.0
    ensures i < 5
    ensures built + [Environment.NewMeteor(config, rs[4 * i + 1], rs[4 * i + 2], rs[4 * i + 3])]
              + Wave(config, i + 1, rs[4 * (i + 1)..]) == Wave(config, 0, rs)
  {
    var tail := rs[4 * i..];
    assert tail[4..] == rs[4 * (i + 1)..];
    assert Wave(config, i, tail) ==
           [Environment.NewMeteor(config, tail[1], tail[2], tail[3])] + Wave(config, i + 1, tail[4..]);
  }

  /** A failing test of the meteor loop ends the wave. */
  lemma WaveStop(config: Environment.EnvironmentProps, i: nat, rs: seq<real>)
    requires i <= 5 && |rs| >= 21 && Samples(rs)
    requires !((i as real) < rs[4 * i] * 5.0)
    ensures Wave(config, i, rs[4 * i..]) == []
  {
  }

  /** The size of a wave is the number of tests that pass before the first
      that fails: the test for the k-th meteor compares its bound sample,
      found every four samples, with i + k. */
  lemma {:induction false} WaveTests(config: Environment.EnvironmentProps, i: nat, rs: seq<real>)
    requires i <= 5 && |rs| >= 4 * (5 - i) + 1 && Samples(rs)
    ensures 4 * |Wave(config, i, rs)| < |rs|
    ensures forall k :: 0 <= k < |Wave(config, i, rs)| ==> ((i + k) as real) < rs[4 * k] * 5.0
    ensures ((i + |Wave(config, i, rs)|) as real) >= rs[4 * |Wave(config, i, rs)|] * 5.0
    decreases 5 - i
  {
    if (i as real) < rs[0] * 5.0 {
      var rest := rs[4..];
      WaveTests(config, i + 1, rest);
      var n := |Wave(config, i, rs)|;
      assert n == |Wave(config, i + 1, rest)| + 1;
      forall k | 0 <= k < n
        ensures ((i + k) as real) < rs[4 * k] * 5.0
      {
        if k > 0 {
          assert rest[4 * (k - 1)] == rs[4 * k];
        }
      }
      assert rest[4 * (n - 1)] == rs[4 * n];
    }
  }

  /** The loop of `#createMetoerites`, consuming the sample stream four
      values per meteor.  The count `n` is the first index whose freshly drawn bound
      does not exceed it: every earlier test passed and the n-th failed. */
  method CreateMeteors(config: Environment.EnvironmentProps, rs: seq<real>) returns (wave: seq<Environment.Hazard>)
    requires |rs| >= 21 && Samples(rs)
    ensures wave == Wave(config, 0, rs)
    ensures |wave| <= 5
    ensures forall k :: 0 <= k < |wave| ==> (k as real) < rs[4 * k] * 5.0
    ensures (|wave| as real) >= rs[4 * |wave|] * 5.0
  {
    wave := [];
    var i := 0;
    while (i as real) < rs[4 * i] * 5.0
      invariant 0 <= i <= 5
      invariant |wave| == i
      invariant wave + Wave(config, i, rs[4 * i..]) == Wave(config, 0, rs)
      decreases 5 - i
    {
      WaveStep(config, wave, i, rs);
      wave := wave + [Environment.NewMeteor(config, rs[4 * i + 1], rs[4 * i + 2], rs[4 * i + 3])];
      i := i + 1;
    }
    WaveStop(config, i, rs);
    WaveTests(config, 0, rs);
  }

  /** A wave is empty exactly when its first bound sample is 0. */
  lemma EmptyWave(config: Environment.EnvironmentProps, rs: seq<real>)
    requires |rs| >= 21 && Samples(rs)
    ensures |Wave(config, 0, rs)| == 0 <==> rs[0] == 0.0
  {
  }

  /** `#createMetoerites`, its rescheduling aside: a wave of meteors from the
      load-time meteor configuration is appended to the hazards. */
  function CreateMetoerites(c: Classic, rs: seq<real>): (r: Classic)
    requires |rs| >= 21 && Samples(rs)
    ensures r == c.(game := c.game.(hazards := r.game.hazards))
    ensures r.game.hazards == c.game.hazards + Wave(MeteorConfig(c.loaded), 0, rs)
    ensures |c.game.hazards| <= |r.game.hazards| <= |c.game.hazards| + 5
    ensures r.game.hazards[..|c.game.hazards|] == c.game.hazards
    ensures forall k :: |c.game.hazards| <= k < |r.game.hazards| ==>
              r.game.hazards[k].damage == 0.0 && r.game.hazards[k].body.x == c.loaded.meteorX &&
              r.game.hazards[k].body.y == 0.0 && 50.0 <= r.game.hazards[k].body.width < 100.0
  {
    var w := Wave(MeteorConfig(c.loaded), 0, rs);
    WaveMeteors(MeteorConfig(c.loaded), 0, rs);
    c.(game := c.game.(hazards := c.game.hazards + w))
  }

  /** The restart signal in the classic mode: the base game is reset, so the
      roster is empty (the constructor's initial 2 enemies and 25
      collectables are not re-added), and the super flag survives. */
  function Restart(c: Classic, width: real, height: real): (r: Classic)
    ensures r.game.enemies == [] && r.game.collectables == [] && r.game.hazards == []
    ensures r.game.state == Running && !r.game.paused && r.game.score == 0.0 && r.game.lastScore == 0.0
    ensures r.superThings == c.superThings && r.loaded == c.loaded
    ensures r.game == NewGame(c.game.playerConfig, width, height)
  {
    c.(game := BaseGame.Restart(c.game, width, height))
  }

  /** Once a super entity has been spawned the flag stays set through any
      refill, meteor wave, tick or restart. */
  lemma SuperThingsSticky(c: Classic, rc: seq<real>, re: seq<real>, rs: seq<real>, width: real, height: real)
    requires c.superThings
    requires |rc| >= 10 && Samples(rc) && |re| >= 4 && Samples(re)
    requires |rs| >= 21 && Samples(rs)
    ensures RegularUpdate(c, rc, re).superThings
    ensures CreateMetoerites(c, rs).superThings
    ensures c.(game := Tick(c.game)).superThings
    ensures Restart(c, width, height).superThings
  {
  }
}
