/**
  The world state of the shooter: the game record, the player, the three
  entity configurations and the maps of bullets, enemies and stars, keyed by
  entity id. Every coordinate, size and speed is a JavaScript number in the
  game and a `real` here (enemy speeds are fractional: 1.5 + level/4).
 */
module World {

  const GameWidth: real := 700.0
  const GameHeight: real := 600.0
  const PlayerWidth: real := 20.0
  const PlayerHeight: real := 20.0
  const PlayerSpeed: real := 5.0

  /** Points added to the score for every enemy a bullet removes. */
  const KillReward: int := 10

  datatype Game = Game(
    width: real,
    height: real,
    level: nat,
    gameStarted: bool,
    gameOver: bool,
    score: int)

  /** The keys currently held, as set and cleared by the key handlers. */
  datatype KeyPress = KeyPress(left: bool, right: bool, shoot: bool)

  datatype Player = Player(
    x: real,
    y: real,
    canShoot: bool,
    keyPress: KeyPress,
    width: real,
    height: real,
    speed: real)

  datatype BulletConfig = BulletConfig(width: real, height: real, speed: real)
  datatype EnemyConfig = EnemyConfig(width: real, height: real, speed: real)
  datatype StarConfig = StarConfig(width: real, height: real)

  datatype Bullet = Bullet(id: nat, x: real, y: real, speed: real, width: real, height: real)
  datatype Enemy = Enemy(id: nat, x: real, y: real, speed: real, width: real, height: real)
  datatype Star = Star(id: nat, x: real, y: real, speed: real, width: real, height: real)

  datatype State = State(
    game: Game,
    player: Player,
    bulletConfig: BulletConfig,
    enemyConfig: EnemyConfig,
    starConfig: StarConfig,
    bullets: map<nat, Bullet>,
    bulletsFired: nat,
    enemies: map<nat, Enemy>,
    stars: map<nat, Star>)

  /** The configuration every state of a session carries unchanged. */
  predicate DefaultConfig(s: State)
  {
    && s.game.width == GameWidth
    && s.game.height == GameHeight
    && s.player.width == PlayerWidth
    && s.player.height == PlayerHeight
    && s.player.speed == PlayerSpeed
    && s.bulletConfig == BulletConfig(2.0, 10.0, 10.0)
    && s.enemyConfig == EnemyConfig(20.0, 20.0, 1.5)
    && s.starConfig == StarConfig(2.0, 2.0)
  }

  /** The player lies horizontally inside the playing field. */
  predicate PlayerInField(s: State)
  {
    0.0 <= s.player.x && s.player.x + s.player.width <= s.game.width
  }

  /** The state a session boots with, and the one a reset returns to. */
  function DefaultState(): (s: State)
    ensures DefaultConfig(s) && PlayerInField(s)
    ensures s.game.level == 1 && s.game.score == 0
    ensures !s.game.gameStarted && !s.game.gameOver
    ensures s.player.canShoot && s.player.keyPress == KeyPress(false, false, false)
    ensures s.player.y + s.player.height == s.game.height
    ensures s.bullets == map[] && s.enemies == map[] && s.stars == map[]
    ensures s.bulletsFired == 0
  {
    State(
      Game(GameWidth, GameHeight, 1, false, false, 0),
      Player(GameWidth / 2.0 - PlayerWidth, GameHeight - PlayerHeight, true,
             KeyPress(false, false, false), PlayerWidth, PlayerHeight, PlayerSpeed),
      BulletConfig(2.0, 10.0, 10.0),
      EnemyConfig(20.0, 20.0, 1.5),
      StarConfig(2.0, 2.0),
      map[], 0, map[], map[])
  }
}
