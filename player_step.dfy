/**
  The per-tick player step (`updatePlayer`): the held arrow keys move the
  player by its speed as long as it stays inside the field, and a held
  fire key fires one bullet when firing is allowed, then disallows it until
  the fire key is released.
 */
module PlayerStep {
  import opened World
  import opened Bullets

  /** The player fires this tick: the fire key is held and firing is allowed. */
  predicate Fires(s: State)
  {
    s.player.keyPress.shoot && s.player.canShoot
  }

  /**
    The left key moves the player left when the move keeps its left edge at
    or right of 0; then the right key moves it right when the move keeps its
    right edge at or left of the field width. A bullet is fired from the
    position the player had before moving.
   */
  function UpdatePlayer(s: State): (r: State)
    ensures r == s.(player := r.player, bullets := r.bullets, bulletsFired := r.bulletsFired)
    ensures r.player == s.player.(x := r.player.x, canShoot := s.player.canShoot && !s.player.keyPress.shoot)
    ensures !s.player.keyPress.left && !s.player.keyPress.right ==> r.player.x == s.player.x
    ensures s.player.keyPress.left && !s.player.keyPress.right ==>
      r.player.x == (if s.player.x - s.player.speed >= 0.0 then s.player.x - s.player.speed else s.player.x)
    ensures !s.player.keyPress.left && s.player.keyPress.right ==>
      r.player.x == (if s.player.x + s.player.width + s.player.speed <= s.game.width
                     then s.player.x + s.player.speed else s.player.x)
    ensures s.player.keyPress.left && s.player.keyPress.right && PlayerInField(s) ==>
      r.player.x == (if s.player.x - s.player.speed >= 0.0 then s.player.x
                     else if s.player.x + s.player.width + s.player.speed <= s.game.width
                     then s.player.x + s.player.speed else s.player.x)
    ensures 0.0 <= s.player.speed && PlayerInField(s) ==> PlayerInField(r)
    ensures Fires(s) ==> r.bulletsFired == s.bulletsFired + 1
    ensures Fires(s) ==> r.bullets.Keys == s.bullets.Keys + {s.bulletsFired}
    ensures Fires(s) ==> forall k :: k in s.bullets && k != s.bulletsFired ==> r.bullets[k] == s.bullets[k]
    ensures Fires(s) ==> r.bullets[s.bulletsFired]
                         == Bullet(s.bulletsFired, s.player.x, s.player.y, s.bulletConfig.speed,
                                   s.bulletConfig.width, s.bulletConfig.height)
    ensures !Fires(s) ==> r.bullets == s.bullets && r.bulletsFired == s.bulletsFired
  {
    var p := s.player;
    var x := if p.keyPress.left && p.x - p.speed >= 0.0 then p.x - p.speed else p.x;
    var x' := if p.keyPress.right && x + p.width + p.speed <= s.game.width then x + p.speed else x;
    if Fires(s) then
      CreateBullet(s).(player := p.(x := x', canShoot := false))
    else
      s.(player := p.(x := x'))
  }

  /** The player step applied `n` times in a row, the keys left as they are. */
  function PlayerTicks(s: State, n: nat): State
  {
    if n == 0 then s else UpdatePlayer(PlayerTicks(s, n - 1))
  }

  /**
    Holding the fire key fires at most one bullet, however many ticks it is
    held: exactly one when firing was allowed, none otherwise. The held keys
    never change on their own.
   */
  lemma {:induction false} HeldFireShootsOnce(s: State, n: nat)
    requires s.player.keyPress.shoot
    ensures PlayerTicks(s, n).player.keyPress == s.player.keyPress
    ensures PlayerTicks(s, n).bulletsFired == s.bulletsFired + (if n > 0 && s.player.canShoot then 1 else 0)
    ensures n > 0 ==> !PlayerTicks(s, n).player.canShoot
  {
    if n > 0 {
      HeldFireShootsOnce(s, n - 1);
    }
  }
}
