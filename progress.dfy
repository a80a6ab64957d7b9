/**
  The game-level transitions: starting a game, ending it, resetting it, and
  moving to the next level once a wave is cleared (`startGame`, `gameOver`,
  `resetGame`, `updateLevels`). Only their effect on the state is modelled;
  the messages and the score text they put on screen are not.
 */
module Progress {
  import opened World
  import opened Waves

  /** Ends the game: only the game-over flag changes. */
  function GameOver(s: State): (r: State)
    ensures r.game.gameOver
    ensures r.(game := r.game.(gameOver := s.game.gameOver)) == s
  {
    s.(game := s.game.(gameOver := true))
  }

  /**
    Back to the boot state, except that the stars stay where they are and
    the score is explicitly zero.
   */
  function ResetGame(s: State): (r: State)
    ensures r == DefaultState().(stars := s.stars)
    ensures r.stars == s.stars
    ensures r.game.score == 0 && r.game.level == 1
    ensures !r.game.gameStarted && !r.game.gameOver
    ensures r.bullets == map[] && r.enemies == map[] && r.bulletsFired == 0
    ensures r.player.canShoot && r.player.keyPress == KeyPress(false, false, false)
    ensures DefaultConfig(r) && PlayerInField(r)
  {
    var boot := DefaultState();
    boot.(stars := s.stars, game := boot.game.(score := 0))
  }

  /** Starts the game: the wave of the current level is laid out and the game runs. */
  method StartGame(s: State) returns (r: State)
    ensures r == s.(enemies := r.enemies, game := s.game.(gameStarted := true))
    ensures s.enemies.Keys <= r.enemies.Keys
    ensures forall i: nat :: i < WaveSize(s.game.level) ==> i in r.enemies && r.enemies[i] == WaveEnemy(s.game.width, s.game.level, s.enemyConfig, i)
    ensures s.enemies == map[] ==> IsWave(r.enemies, r.game.width, r.game.level, r.enemyConfig) && |r.enemies| == WaveSize(s.game.level)
  {
    r := CreateEnemies(s);
    r := r.(game := r.game.(gameStarted := true));
  }

  /**
    Once a running game has no enemy left, the level goes up by one and the
    wave of the new level replaces the empty enemy map; otherwise nothing
    changes.
   */
  method UpdateLevels(s: State) returns (r: State)
    ensures s.game.gameStarted && !s.game.gameOver && |s.enemies| == 0 ==>
      && r == s.(game := s.game.(level := s.game.level + 1), enemies := r.enemies)
      && IsWave(r.enemies, r.game.width, r.game.level, r.enemyConfig)
      && |r.enemies| == WaveSize(s.game.level + 1)
    ensures !(s.game.gameStarted && !s.game.gameOver && |s.enemies| == 0) ==> r == s
  {
    if s.game.gameStarted && !s.game.gameOver && |s.enemies| < 1 {
      assert s.enemies == map[] by {
        assert s.enemies.Keys == {};
      }
      var next := s.(game := s.game.(level := s.game.level + 1));
      r := CreateEnemies(next);
    } else {
      r := s;
    }
  }
}
