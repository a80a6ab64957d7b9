/**
  The running game of `main`: one mutable state that the clock and the two
  key handlers replace in turn. The state of every session satisfies the
  engine invariant, whatever keys are pressed and whatever in-range random
  values are drawn.
 */
module Session {
  import opened World
  import opened Waves
  import opened Starfield
  import opened Engine

  class Shooter {
    var state: State

    ghost predicate Valid()
      reads this
    {
      Inv(state)
    }

    /** Boots the game: the default state under a fresh starfield, waiting for a key. */
    constructor (spawn: nat -> Spawn)
      requires forall k: nat :: k < StarCount ==> SpawnInRange(spawn(k), GameWidth, GameHeight)
      ensures Valid()
      ensures state == DefaultState().(stars := state.stars)
      ensures forall k: nat :: k in state.stars <==> k < StarCount
      ensures forall k :: k in state.stars ==> state.stars[k] == NewStar(DefaultState(), k, spawn(k))
    {
      var boot := Boot(spawn);
      state := boot;
    }

    /** One clock tick, with the cosine and the star random values of this tick. */
    method Clock(cos: real -> real, respawn: nat -> Respawn)
      requires Valid() && RespawnsInRange(state, respawn)
      modifies this
      ensures Valid()
      ensures state.stars == StarsAfter(old(state).stars, old(state).game.height, respawn)
      ensures !old(state).game.gameStarted || old(state).game.gameOver ==> state == old(state).(stars := state.stars)
      ensures old(state).game.score <= state.game.score
      ensures old(state).game.gameOver ==> state.game.gameOver
      ensures old(state).game.gameStarted && !old(state).game.gameOver ==>
        Played(old(state).(stars := StarsAfter(old(state).stars, old(state).game.height, respawn)), cos, state)
    {
      state := Tick(state, cos, respawn);
    }

    /** A key press: starts, restarts or steers the game. */
    method KeyDown(keyCode: int)
      requires Valid()
      modifies this
      ensures Valid()
      ensures state.game.gameStarted && !state.game.gameOver
      ensures !old(state).game.gameStarted ==>
        state == old(state).(enemies := state.enemies, game := old(state).game.(gameStarted := true))
      ensures !old(state).game.gameStarted ==>
        IsWave(state.enemies, state.game.width, state.game.level, state.enemyConfig)
      ensures old(state).game.gameStarted && old(state).game.gameOver ==>
        state == DefaultState().(stars := old(state).stars, enemies := state.enemies,
                                 game := DefaultState().game.(gameStarted := true))
      ensures old(state).game.gameStarted && old(state).game.gameOver ==>
        && state.stars == old(state).stars && state.game.score == 0 && state.game.level == 1
        && state.bullets == map[] && state.bulletsFired == 0 && state.player == DefaultState().player
        && IsWave(state.enemies, state.game.width, 1, state.enemyConfig) && |state.enemies| == 12
      ensures old(state).game.gameStarted && !old(state).game.gameOver ==>
        state == old(state).(player := old(state).player.(keyPress := KeyPress(
                   old(state).player.keyPress.left || keyCode == LeftKey,
                   old(state).player.keyPress.right || keyCode == RightKey,
                   old(state).player.keyPress.shoot || keyCode == FireKey)))
    {
      state := OnKeyDown(state, keyCode);
    }

    /** A key release. */
    method KeyUp(keyCode: int)
      requires Valid()
      modifies this
      ensures Valid()
      ensures state == OnKeyUp(old(state), keyCode)
    {
      state := OnKeyUp(state, keyCode);
    }
  }
}
