/**
  The game loop and the input handlers of `main`: one clock tick moves the
  stars and, while a game runs, the player, the bullets and the enemies,
  then checks for a cleared wave; a key press starts, restarts or steers
  the game, and a key release stops steering.
 */
module Engine {
  import opened World
  import opened Waves
  import opened Starfield
  import opened Bullets
  import opened Progress
  import opened EnemyStep
  import opened PlayerStep

  /** Key codes the handlers react to. */
  const LeftKey: int := 37
  const RightKey: int := 39
  const FireKey: int := 32

  /** Every bullet is keyed by its id, below the fired counter, and shaped as configured. */
  ghost predicate BulletsKeyed(s: State)
  {
    forall k :: k in s.bullets ==>
      && s.bullets[k].id == k && k < s.bulletsFired
      && s.bullets[k].width == s.bulletConfig.width && s.bullets[k].height == s.bulletConfig.height
      && s.bullets[k].speed == s.bulletConfig.speed
  }

  /** Every enemy is keyed by its id and shaped as configured. */
  ghost predicate EnemiesKeyed(s: State)
  {
    forall k :: k in s.enemies ==>
      s.enemies[k].id == k && s.enemies[k].width == s.enemyConfig.width && s.enemies[k].height == s.enemyConfig.height
  }

  /** The twenty stars are all there and inside the field. */
  ghost predicate StarsKept(s: State)
  {
    && (forall k: nat :: k in s.stars <==> k < StarCount)
    && Sky(s.stars, s.game.width, s.game.height)
  }

  /** Before a game starts nothing is over, and there are no enemies and no bullets. */
  ghost predicate Idle(s: State)
  {
    !s.game.gameStarted ==> !s.game.gameOver && s.enemies == map[] && s.bullets == map[]
  }

  /** What holds of every state a session goes through. */
  ghost predicate Inv(s: State)
  {
    && DefaultConfig(s)
    && 1 <= s.game.level
    && PlayerInField(s)
    && BulletsKeyed(s)
    && EnemiesKeyed(s)
    && StarsKept(s)
    && 0 <= s.game.score && s.game.score % KillReward == 0
    && Idle(s)
  }

  /** The random values a tick draws for the stars are those the game can draw. */
  ghost predicate RespawnsInRange(s: State, respawn: nat -> Respawn)
  {
    forall k :: k in s.stars ==> RespawnInRange(respawn(k), s.game.width)
  }

  /**
    `r` is the outcome of the bullet step on `s`, as `UpdateBullets`
    promises it: the moved bullets that survive, the enemies no bullet hit,
    and the reward for each destroyed enemy.
   */
  ghost predicate BulletsOutcome(s: State, r: State)
  {
    && r == s.(bullets := r.bullets, enemies := r.enemies, game := s.game.(score := r.game.score))
    && (forall k :: k in r.enemies <==> k in s.enemies && !ShotDown(s.bullets, s.enemies[k]))
    && (forall k :: k in r.enemies ==> r.enemies[k] == s.enemies[k])
    && (forall k :: k in r.bullets <==> k in s.bullets && Survives(s.bullets, s.enemies, k))
    && (forall k :: k in r.bullets ==> r.bullets[k] == Moved(s.bullets[k]))
    && r.game.score == s.game.score + KillReward * (|s.enemies| - |r.enemies|)
  }

  /**
    `r` is the outcome of the enemy step on `s`, as `UpdateEnemies`
    promises it: enemies advance up to the first breach, which ends the game.
   */
  ghost predicate EnemiesOutcome(s: State, cos: real -> real, r: State)
  {
    && r == s.(enemies := r.enemies, game := s.game.(gameOver := r.game.gameOver))
    && r.enemies.Keys == s.enemies.Keys
    && (forall k :: k in s.enemies ==>
          r.enemies[k] == (if BreachBelow(s, cos, k) then s.enemies[k] else Advance(s.enemies[k], s.game.level, cos)))
    && r.game.gameOver == (s.game.gameOver || AnyBreach(s, cos))
  }

  /**
    `r` is the outcome of the level step on `s`, as `UpdateLevels` promises
    it: a cleared wave in a running game brings the next level's wave.
   */
  ghost predicate LevelsOutcome(s: State, r: State)
  {
    && (s.game.gameStarted && !s.game.gameOver && |s.enemies| == 0 ==>
          && r == s.(game := s.game.(level := s.game.level + 1), enemies := r.enemies)
          && IsWave(r.enemies, r.game.width, r.game.level, r.enemyConfig))
    && (!(s.game.gameStarted && !s.game.gameOver && |s.enemies| == 0) ==> r == s)
  }

  /**
    `r` is what a running game becomes in one tick: the player step, then the
    bullet step, the enemy step and the level step, each on the result of
    the one before.
   */
  ghost predicate Played(s: State, cos: real -> real, r: State)
  {
    exists b: State, e: State ::
      BulletsOutcome(UpdatePlayer(s), b) && EnemiesOutcome(b, cos, e) && LevelsOutcome(e, r)
  }

  /**
    In every session state the game's edge-based hit test between a moved
    bullet and an enemy is plain box overlap, touching edges included.
   */
  lemma HitsAreOverlaps(s: State, j: nat, k: nat)
    requires Inv(s) && j in s.bullets && k in s.enemies
    ensures Hits(Moved(s.bullets[j]), s.enemies[k]) <==> Overlaps(Moved(s.bullets[j]), s.enemies[k])
  {
    HitsIsOverlap(Moved(s.bullets[j]), s.enemies[k]);
  }

  lemma StarsKeepInv(s: State, respawn: nat -> Respawn)
    requires Inv(s) && RespawnsInRange(s, respawn)
    ensures Inv(s.(stars := StarsAfter(s.stars, s.game.height, respawn)))
  {
    SkyPreserved(s.stars, s.game.width, s.game.height, respawn);
  }

  lemma PlayerKeepsInv(s: State)
    requires Inv(s) && s.game.gameStarted
    ensures Inv(UpdatePlayer(s))
  {
    var r := UpdatePlayer(s);
    assert BulletsKeyed(r) by {
      forall k | k in r.bullets
        ensures r.bullets[k].id == k && k < r.bulletsFired
        ensures r.bullets[k].width == r.bulletConfig.width && r.bullets[k].height == r.bulletConfig.height
        ensures r.bullets[k].speed == r.bulletConfig.speed
      {
        if Fires(s) && k == s.bulletsFired {
        } else {
          assert k in s.bullets;
        }
      }
    }
  }

  lemma BulletsKeepInv(s: State, r: State)
    requires Inv(s)
    requires r == s.(bullets := r.bullets, enemies := r.enemies, game := s.game.(score := r.game.score))
    requires forall k :: k in r.bullets ==> k in s.bullets && r.bullets[k] == Moved(s.bullets[k])
    requires forall k :: k in r.enemies ==> k in s.enemies && r.enemies[k] == s.enemies[k]
    requires r.game.score == s.game.score + KillReward * (|s.enemies| - |r.enemies|)
    requires |r.enemies| <= |s.enemies|
    requires s.game.gameStarted
    ensures Inv(r)
  {
    ScoreStep(s.game.score, |s.enemies| - |r.enemies|);
    assert BulletsKeyed(r) by {
      forall k | k in r.bullets
        ensures r.bullets[k].id == k && k < r.bulletsFired
        ensures r.bullets[k].width == r.bulletConfig.width && r.bullets[k].height == r.bulletConfig.height
        ensures r.bullets[k].speed == r.bulletConfig.speed
      {
        assert k in s.bullets;
      }
    }
  }

  /** A score that is a non-negative multiple of the reward stays one when kills are added. */
  lemma ScoreStep(score: int, kills: int)
    requires 0 <= score && score % KillReward == 0 && 0 <= kills
    ensures 0 <= score + KillReward * kills && (score + KillReward * kills) % KillReward == 0
  {
  }

  lemma EnemiesKeepInv(s: State, r: State, cos: real -> real)
    requires Inv(s)
    requires r == s.(enemies := r.enemies, game := s.game.(gameOver := r.game.gameOver))
    requires forall k :: k in r.enemies ==>
      k in s.enemies && (r.enemies[k] == s.enemies[k] || r.enemies[k] == Advance(s.enemies[k], s.game.level, cos))
    requires s.game.gameStarted
    ensures Inv(r)
  {
  }

  /** A wave laid out with the session's configuration is keyed and shaped as the invariant asks. */
  lemma WaveKeyed(s: State)
    requires IsWave(s.enemies, s.game.width, s.game.level, s.enemyConfig)
    ensures EnemiesKeyed(s)
  {
    forall k | k in s.enemies
      ensures s.enemies[k].id == k && s.enemies[k].width == s.enemyConfig.width
      ensures s.enemies[k].height == s.enemyConfig.height
    {
      WaveEnemyPlacement(s.game, s.enemyConfig, k);
    }
  }

  lemma LevelsKeepInv(s: State, r: State)
    requires Inv(s) && s.game.gameStarted
    requires s.game.gameStarted && !s.game.gameOver && |s.enemies| == 0 ==>
      && r == s.(game := s.game.(level := s.game.level + 1), enemies := r.enemies)
      && IsWave(r.enemies, r.game.width, r.game.level, r.enemyConfig)
    requires !(s.game.gameStarted && !s.game.gameOver && |s.enemies| == 0) ==> r == s
    ensures Inv(r)
  {
    if s.game.gameStarted && !s.game.gameOver && |s.enemies| == 0 {
      WaveKeyed(r);
    }
  }

  /**
    One clock tick. The stars always move; the rest of the world moves only
    while a game runs. The score never drops, a game that is over stays
    over, and the level goes up by at most one, with a fresh wave when it
    does.
   */
  method Tick(s: State, cos: real -> real, respawn: nat -> Respawn) returns (r: State)
    ensures r.stars == StarsAfter(s.stars, s.game.height, respawn)
    ensures !s.game.gameStarted || s.game.gameOver ==> r == s.(stars := r.stars)
    ensures r.game.gameStarted == s.game.gameStarted
    ensures s.game.gameOver ==> r.game.gameOver
    ensures s.game.score <= r.game.score
    ensures r.game.level == s.game.level || r.game.level == s.game.level + 1
    ensures r.game.level == s.game.level + 1 ==> IsWave(r.enemies, r.game.width, r.game.level, r.enemyConfig)
    ensures s.game.gameStarted && !s.game.gameOver ==>
      Played(s.(stars := StarsAfter(s.stars, s.game.height, respawn)), cos, r)
    ensures Inv(s) && RespawnsInRange(s, respawn) ==> Inv(r)
  {
    if Inv(s) && RespawnsInRange(s, respawn) {
      StarsKeepInv(s, respawn);
    }
    r := UpdateStars(s, respawn);
    if r.game.gameStarted && !r.game.gameOver {
      r := Play(r, cos);
    }
  }

  /** The part of a tick that runs only while a game runs: player, bullets, enemies, level. */
  method Play(s: State, cos: real -> real) returns (r: State)
    requires s.game.gameStarted && !s.game.gameOver
    ensures r.stars == s.stars
    ensures r.game.gameStarted
    ensures s.game.score <= r.game.score
    ensures r.game.level == s.game.level || r.game.level == s.game.level + 1
    ensures r.game.level == s.game.level + 1 ==> IsWave(r.enemies, r.game.width, r.game.level, r.enemyConfig)
    ensures r.player == UpdatePlayer(s).player && r.bulletsFired == UpdatePlayer(s).bulletsFired
    ensures Played(s, cos, r)
    ensures Inv(s) ==> Inv(r)
  {
    var p := UpdatePlayer(s);
    if Inv(s) {
      PlayerKeepsInv(s);
    }
    var b := UpdateBullets(p);
    if Inv(p) {
      BulletsKeepInv(p, b);
    }
    var e := UpdateEnemies(b, cos);
    if Inv(b) {
      EnemiesKeepInv(b, e, cos);
    }
    r := UpdateLevels(e);
    if Inv(e) {
      LevelsKeepInv(e, r);
    }
    assert BulletsOutcome(p, b) && EnemiesOutcome(b, cos, e) && LevelsOutcome(e, r);
  }

  /**
    A key press. Before the first game it starts one; after a game is over
    it resets the world, keeping the stars, and starts a new game at level
    one; during a game the arrow and fire keys are marked as held.
   */
  method OnKeyDown(s: State, keyCode: int) returns (r: State)
    ensures !s.game.gameStarted ==> r == s.(enemies := r.enemies, game := s.game.(gameStarted := true))
    ensures !s.game.gameStarted && s.enemies == map[] ==>
      IsWave(r.enemies, s.game.width, s.game.level, s.enemyConfig) && |r.enemies| == WaveSize(s.game.level)
    ensures s.game.gameStarted && s.game.gameOver ==>
      r == DefaultState().(stars := s.stars, enemies := r.enemies, game := DefaultState().game.(gameStarted := true))
    ensures s.game.gameStarted && s.game.gameOver ==>
      && r.stars == s.stars && r.game.score == 0 && r.game.level == 1
      && r.game.gameStarted && !r.game.gameOver
      && r.bullets == map[] && r.bulletsFired == 0
      && r.player == DefaultState().player
      && IsWave(r.enemies, r.game.width, 1, r.enemyConfig) && |r.enemies| == 12
    ensures s.game.gameStarted && !s.game.gameOver ==>
      r == s.(player := s.player.(keyPress := KeyPress(
                s.player.keyPress.left || keyCode == LeftKey,
                s.player.keyPress.right || keyCode == RightKey,
                s.player.keyPress.shoot || keyCode == FireKey)))
    ensures Inv(s) ==> Inv(r)
  {
    if !s.game.gameStarted {
      r := StartGame(s);
      if Inv(s) {
        WaveKeyed(r);
      }
      return;
    }
    if s.game.gameOver {
      r := ResetGame(s);
      r := StartGame(r);
      WaveSizeFormula(1);
      WaveKeyed(r);
      return;
    }
    var keys := s.player.keyPress;
    if keyCode == LeftKey {
      keys := keys.(left := true);
    } else if keyCode == RightKey {
      keys := keys.(right := true);
    } else if keyCode == FireKey {
      keys := keys.(shoot := true);
    }
    r := s.(player := s.player.(keyPress := keys));
  }

  /** A key release: the arrow and fire keys are no longer held, and releasing fire allows firing again. */
  function OnKeyUp(s: State, keyCode: int): (r: State)
    ensures r == s.(player := s.player.(keyPress := r.player.keyPress, canShoot := r.player.canShoot))
    ensures r.player.keyPress == KeyPress(
      s.player.keyPress.left && keyCode != LeftKey,
      s.player.keyPress.right && keyCode != RightKey,
      s.player.keyPress.shoot && keyCode != FireKey)
    ensures r.player.canShoot == (s.player.canShoot || keyCode == FireKey)
    ensures Inv(s) ==> Inv(r)
  {
    var keys := s.player.keyPress;
    if keyCode == LeftKey then
      s.(player := s.player.(keyPress := keys.(left := false)))
    else if keyCode == RightKey then
      s.(player := s.player.(keyPress := keys.(right := false)))
    else if keyCode == FireKey then
      s.(player := s.player.(keyPress := keys.(shoot := false), canShoot := true))
    else
      s
  }

  /** The state a session boots with: the default state under a fresh starfield. */
  method Boot(spawn: nat -> Spawn) returns (r: State)
    ensures r == DefaultState().(stars := r.stars)
    ensures forall k: nat :: k in r.stars <==> k < StarCount
    ensures forall k :: k in r.stars ==> r.stars[k] == NewStar(DefaultState(), k, spawn(k))
    ensures (forall k: nat :: k < StarCount ==> SpawnInRange(spawn(k), GameWidth, GameHeight)) ==> Inv(r)
  {
    r := CreateStarfield(DefaultState(), spawn);
  }
}
