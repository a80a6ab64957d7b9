/**
  Wave generation: the grid of enemies laid out for a level
  (`createEnemies`), and the removal of one enemy (`removeEnemy`).
 */
module Waves {
  import opened Ids
  import opened World

  /** Horizontal and vertical gap between neighbouring enemies of a wave. */
  const EnemyPadding: real := 10.0

  function PerRow(level: nat): (n: nat)
    ensures n >= 5
  {
    level + 5
  }

  /** Number of enemies in the wave of a level. */
  function WaveSize(level: nat): nat
  {
    PerRow(level) + level * PerRow(level)
  }

  /** A wave has one row more than the level number: (level+5)*(level+1) enemies. */
  lemma WaveSizeFormula(level: nat)
    ensures WaveSize(level) == (level + 5) * (level + 1)
    ensures WaveSize(level) >= PerRow(level)
  {
  }

  /**
    `n` copies of `a` added up: the products of the layout, written so that
    the solver does not see a product of two unknowns.
   */
  function Times(a: real, n: nat): real
  {
    if n == 0 then 0.0 else Times(a, n - 1) + a
  }

  lemma {:induction false} TimesIsProduct(a: real, n: nat)
    ensures Times(a, n) == a * (n as real)
  {
    if n > 0 {
      TimesIsProduct(a, n - 1);
    }
  }

  /** Left edge of the first column of a wave. */
  function XStart(width: real, cfg: EnemyConfig, level: nat): real
  {
    var n := PerRow(level);
    width / 2.0 - (Times(cfg.width, n) + Times(EnemyPadding, n)) / 2.0
  }

  /** The row block, padding included, is centred on the field. */
  lemma XStartCentred(width: real, cfg: EnemyConfig, level: nat)
    ensures XStart(width, cfg, level) + (PerRow(level) as real) * (cfg.width + EnemyPadding) / 2.0 == width / 2.0
    ensures width == GameWidth && cfg.width == 20.0 ==> XStart(width, cfg, level) == 350.0 - 15.0 * PerRow(level) as real
  {
    TimesIsProduct(cfg.width, PerRow(level));
    TimesIsProduct(EnemyPadding, PerRow(level));
  }

  function Column(level: nat, i: nat): nat { i % PerRow(level) }
  function Row(level: nat, i: nat): nat { i / PerRow(level) }

  /** Enemy `i` of the wave of the game's level. */
  function WaveEnemy(width: real, level: nat, cfg: EnemyConfig, i: nat): Enemy
  {
    var col := Column(level, i);
    var row := Row(level, i);
    Enemy(i,
          Times(cfg.width, col) + Times(EnemyPadding, col) + XStart(width, cfg, level),
          Times(cfg.height, row) + Times(EnemyPadding, row),
          cfg.speed + (level as real) / 4.0,
          cfg.width,
          cfg.height)
  }

  /**
    Enemy `i` sits in column i % PerRow and row i / PerRow of a grid whose
    cells are one enemy plus the padding wide and high, and moves at the base
    speed plus a quarter of the level.
   */
  lemma WaveEnemyPlacement(game: Game, cfg: EnemyConfig, i: nat)
    ensures WaveEnemy(game.width, game.level, cfg, i).id == i
    ensures WaveEnemy(game.width, game.level, cfg, i).x
         == XStart(game.width, cfg, game.level) + (Column(game.level, i) as real) * (cfg.width + EnemyPadding)
    ensures WaveEnemy(game.width, game.level, cfg, i).y == (Row(game.level, i) as real) * (cfg.height + EnemyPadding)
    ensures WaveEnemy(game.width, game.level, cfg, i).speed == cfg.speed + (game.level as real) / 4.0
    ensures WaveEnemy(game.width, game.level, cfg, i).width == cfg.width && WaveEnemy(game.width, game.level, cfg, i).height == cfg.height
  {
    var col := Column(game.level, i);
    var row := Row(game.level, i);
    TimesIsProduct(cfg.width, col);
    TimesIsProduct(EnemyPadding, col);
    TimesIsProduct(cfg.height, row);
    TimesIsProduct(EnemyPadding, row);
  }

  /** `m` is exactly the wave of the game's level. */
  ghost predicate IsWave(m: map<nat, Enemy>, width: real, level: nat, cfg: EnemyConfig)
  {
    && m.Keys == IdRange(WaveSize(level))
    && forall i :: i in m ==> m[i] == WaveEnemy(width, level, cfg, i)
  }

  /**
    Adds the wave of the current level to the enemies already present: ids
    0 .. WaveSize-1 are (over)written, any other enemy is kept.
   */
  method CreateEnemies(s: State) returns (r: State)
    ensures r == s.(enemies := r.enemies)
    ensures forall k: nat :: k in r.enemies <==> k in s.enemies || k < WaveSize(s.game.level)
    ensures forall i: nat :: i in r.enemies && i < WaveSize(s.game.level) ==> r.enemies[i] == WaveEnemy(s.game.width, s.game.level, s.enemyConfig, i)
    ensures forall k :: k in s.enemies && WaveSize(s.game.level) <= k ==> r.enemies[k] == s.enemies[k]
    ensures s.enemies == map[] ==> IsWave(r.enemies, s.game.width, s.game.level, s.enemyConfig)
    ensures s.enemies == map[] ==> |r.enemies| == WaveSize(s.game.level)
  {
    var enemies: map<nat, Enemy> := s.enemies;
    var count := WaveSize(s.game.level);
    for i := 0 to count
      invariant forall k: nat :: k in enemies <==> k in s.enemies || k < i
      invariant forall j: nat :: j in enemies && j < i ==> enemies[j] == WaveEnemy(s.game.width, s.game.level, s.enemyConfig, j)
      invariant forall k :: k in enemies && i <= k ==> enemies[k] == s.enemies[k]
    {
      enemies := enemies[i := WaveEnemy(s.game.width, s.game.level, s.enemyConfig, i)];
    }
    r := s.(enemies := enemies);
    if s.enemies == map[] {
      WaveOfEmpty(s.game, s.enemyConfig, enemies);
    }
  }

  /** Filling an empty map with the wave yields exactly the wave, of WaveSize enemies. */
  lemma WaveOfEmpty(game: Game, cfg: EnemyConfig, m: map<nat, Enemy>)
    requires forall k: nat :: k in m <==> k < WaveSize(game.level)
    requires forall i :: i in m && i < WaveSize(game.level) ==> m[i] == WaveEnemy(game.width, game.level, cfg, i)
    ensures IsWave(m, game.width, game.level, cfg)
    ensures |m| == WaveSize(game.level)
  {
    CountKeys(m, WaveSize(game.level));
  }

  /** Deleting an enemy that is not there leaves the map as it was. */
  function RemoveEnemy(enemies: map<nat, Enemy>, id: nat): (r: map<nat, Enemy>)
    ensures r.Keys == enemies.Keys - {id}
    ensures forall k :: k in r ==> r[k] == enemies[k]
    ensures id !in enemies ==> r == enemies
    ensures id in enemies ==> |r| == |enemies| - 1
  {
    enemies - {id}
  }

  /** Distinct indices of a wave sit in distinct grid cells. */
  lemma CellsDistinct(level: nat, i: nat, j: nat)
    requires i != j
    ensures Column(level, i) != Column(level, j) || Row(level, i) != Row(level, j)
  {
    var n := PerRow(level);
    assert i == Row(level, i) * n + Column(level, i);
    assert j == Row(level, j) * n + Column(level, j);
  }

  /** Adding up `n` copies of a sum is adding up the copies of each part. */
  lemma {:induction false} TimesSum(a: real, b: real, n: nat)
    ensures Times(a + b, n) == Times(a, n) + Times(b, n)
  {
    if n > 0 {
      TimesSum(a, b, n - 1);
    }
  }

  /** With a non-negative step, more copies add up to more, and never below zero. */
  lemma {:induction false} TimesGrows(a: real, m: nat, n: nat)
    requires 0.0 <= a && m <= n
    ensures 0.0 <= Times(a, m) <= Times(a, n)
    decreases n
  {
    if m < n {
      TimesGrows(a, m, n - 1);
    } else if n > 0 {
      TimesGrows(a, n - 1, n - 1);
    }
  }

  /** With a positive step, more copies add up to strictly more. */
  lemma {:induction false} TimesIncreases(a: real, m: nat, n: nat)
    requires 0.0 < a && m < n
    ensures Times(a, m) < Times(a, n)
    decreases n
  {
    if m < n - 1 {
      TimesIncreases(a, m, n - 1);
    }
  }

  /** Unequal counts of a positive step add up to unequal sums. */
  lemma TimesDiffer(a: real, m: nat, n: nat)
    requires 0.0 < a && m != n
    ensures Times(a, m) != Times(a, n)
  {
    if m < n {
      TimesIncreases(a, m, n);
    } else {
      TimesIncreases(a, n, m);
    }
  }

  /** No two enemies of a wave share a position. */
  lemma WaveCellsDistinct(game: Game, cfg: EnemyConfig, i: nat, j: nat)
    requires cfg.width + EnemyPadding > 0.0 && cfg.height + EnemyPadding > 0.0
    requires i != j
    ensures WaveEnemy(game.width, game.level, cfg, i).x != WaveEnemy(game.width, game.level, cfg, j).x
         || WaveEnemy(game.width, game.level, cfg, i).y != WaveEnemy(game.width, game.level, cfg, j).y
  {
    var ci, cj := Column(game.level, i), Column(game.level, j);
    var ri, rj := Row(game.level, i), Row(game.level, j);
    CellsDistinct(game.level, i, j);
    TimesSum(cfg.width, EnemyPadding, ci);
    TimesSum(cfg.width, EnemyPadding, cj);
    TimesSum(cfg.height, EnemyPadding, ri);
    TimesSum(cfg.height, EnemyPadding, rj);
    if ci != cj {
      TimesDiffer(cfg.width + EnemyPadding, ci, cj);
    } else {
      TimesDiffer(cfg.height + EnemyPadding, ri, rj);
    }
  }

  /**
    When a row of the wave (its padding included) is no wider than the field,
    every enemy of the wave starts horizontally inside the field.
   */
  lemma WaveInsideField(game: Game, cfg: EnemyConfig, i: nat)
    requires 0.0 <= cfg.width
    requires (PerRow(game.level) as real) * (cfg.width + EnemyPadding) <= game.width
    ensures 0.0 <= WaveEnemy(game.width, game.level, cfg, i).x
    ensures WaveEnemy(game.width, game.level, cfg, i).x + cfg.width <= game.width
  {
    var n := PerRow(game.level);
    var c := Column(game.level, i);
    var step := cfg.width + EnemyPadding;
    TimesSum(cfg.width, EnemyPadding, c);
    TimesSum(cfg.width, EnemyPadding, n);
    TimesGrows(step, 0, c);
    TimesGrows(step, c + 1, n);
    TimesIsProduct(step, n);
  }
}
