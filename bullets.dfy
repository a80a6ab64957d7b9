/**
  Bullets: firing one (`createBullet`), removing one (`removeBullet`), and
  the per-tick step that moves every bullet up, drops those past the top
  edge, and lets each bullet destroy the enemies it touches
  (`updateBullets`).
 */
module Bullets {
  import opened Ids
  import opened World
  import opened Waves

  /**
    The game's hit test: one of the bullet's two x-edges lies in the enemy's
    closed x-range, and one of its two y-edges in the closed y-range.
   */
  predicate Hits(b: Bullet, e: Enemy)
  {
    && ((b.x <= e.x + e.width && b.x >= e.x) || (b.x + b.width <= e.x + e.width && b.x + b.width >= e.x))
    && ((b.y <= e.y + e.height && b.y >= e.y) || (b.y + b.height <= e.y + e.height && b.y + b.height >= e.y))
  }

  /** Closed-interval overlap of the two boxes on both axes. */
  predicate Overlaps(b: Bullet, e: Enemy)
  {
    && b.x <= e.x + e.width && e.x <= b.x + b.width
    && b.y <= e.y + e.height && e.y <= b.y + b.height
  }

  /**
    For a bullet no wider and no taller than the enemy (2x10 against 20x20
    in the game), the edge test is exactly box overlap, touching edges
    included.
   */
  lemma HitsIsOverlap(b: Bullet, e: Enemy)
    requires 0.0 <= b.width <= e.width && 0.0 <= b.height <= e.height
    ensures Hits(b, e) <==> Overlaps(b, e)
  {
  }

  /** The bullet after this tick's move: up by its speed. */
  function Moved(b: Bullet): Bullet
  {
    b.(y := b.y - b.speed)
  }

  /** Every bullet id lies below the counter that hands out the next one. */
  ghost predicate IdsBelow(bullets: map<nat, Bullet>, fired: nat)
  {
    forall k :: k in bullets ==> k < fired
  }

  /** Deleting a bullet that is not there leaves the map as it was. */
  function RemoveBullet(bullets: map<nat, Bullet>, id: nat): (r: map<nat, Bullet>)
    ensures r.Keys == bullets.Keys - {id}
    ensures forall k :: k in r ==> r[k] == bullets[k]
    ensures id !in bullets ==> r == bullets
  {
    if id in bullets then bullets - {id} else bullets
  }

  /**
    Fires a bullet from the player's position: its id is the number of
    bullets fired so far, and the counter moves on by one.
   */
  function CreateBullet(s: State): (r: State)
    ensures r == s.(bullets := r.bullets, bulletsFired := s.bulletsFired + 1)
    ensures r.bullets.Keys == s.bullets.Keys + {s.bulletsFired}
    ensures forall k :: k in s.bullets && k != s.bulletsFired ==> r.bullets[k] == s.bullets[k]
    ensures r.bullets[s.bulletsFired] == Bullet(s.bulletsFired, s.player.x, s.player.y,
                                                s.bulletConfig.speed, s.bulletConfig.width, s.bulletConfig.height)
  {
    var id := s.bulletsFired;
    var bullet := Bullet(id, s.player.x, s.player.y, s.bulletConfig.speed, s.bulletConfig.width, s.bulletConfig.height);
    s.(bullets := s.bullets[id := bullet], bulletsFired := id + 1)
  }

  /**
    While every bullet id lies below the counter, firing adds a bullet under
    an id no bullet has, so the map grows by exactly one and the ids stay
    below the new counter.
   */
  lemma FiredIdIsNew(s: State)
    requires IdsBelow(s.bullets, s.bulletsFired)
    ensures s.bulletsFired !in s.bullets
    ensures IdsBelow(CreateBullet(s).bullets, CreateBullet(s).bulletsFired)
    ensures |CreateBullet(s).bullets| == |s.bullets| + 1
  {
  }

  /** Some bullet of `bullets` with an id below `bound` hits `e` after its move. */
  ghost predicate ShotBelow(bullets: map<nat, Bullet>, e: Enemy, bound: int)
  {
    exists j :: j in bullets && j < bound && Hits(Moved(bullets[j]), e)
  }

  /** Some bullet of `bullets` hits `e` after its move. */
  ghost predicate ShotDown(bullets: map<nat, Bullet>, e: Enemy)
  {
    exists j :: j in bullets && Hits(Moved(bullets[j]), e)
  }

  /**
    Bullet `k` destroys an enemy: one it hits that no bullet with a smaller
    id (visited earlier) hit.
   */
  ghost predicate Scores(bullets: map<nat, Bullet>, enemies: map<nat, Enemy>, k: nat)
    requires k in bullets
  {
    exists e :: e in enemies && Hits(Moved(bullets[k]), enemies[e]) && !ShotBelow(bullets, enemies[e], k)
  }

  /** Bullet `k` is still in flight after the step. */
  ghost predicate Survives(bullets: map<nat, Bullet>, enemies: map<nat, Enemy>, k: nat)
    requires k in bullets
  {
    Moved(bullets[k]).y >= 0.0 && !Scores(bullets, enemies, k)
  }

  /** The bullet after `n` ticks in flight: up by `n` times its speed. */
  function Flown(b: Bullet, n: nat): (r: Bullet)
    ensures r == b.(y := b.y - Times(b.speed, n))
  {
    if n == 0 then b else Moved(Flown(b, n - 1))
  }

  /** The number of moves after which a bullet fired at height `b.y` is above the top edge. */
  function Lifetime(b: Bullet): nat
    requires 0.0 < b.speed && 0.0 <= b.y
  {
    (b.y / b.speed).Floor + 1
  }

  /**
    A bullet that hits nothing leaves the field: after `Lifetime(b)` moves
    it is above the top edge, so the survival test of the bullet step drops
    it, and after every earlier move it is still at or below the top edge.
   */
  lemma BulletLeaves(b: Bullet)
    requires 0.0 < b.speed && 0.0 <= b.y
    ensures Flown(b, Lifetime(b)).y < 0.0
    ensures forall m: nat :: m < Lifetime(b) ==> Flown(b, m).y >= 0.0
  {
    var q := b.y / b.speed;
    assert 0.0 <= q by {
      Quotient(b.speed, b.y);
    }
    PastTop(b.speed, b.y);
    forall m: nat | m < Lifetime(b)
      ensures Flown(b, m).y >= 0.0
    {
      BelowTop(b.speed, b.y, m);
    }
  }

  /** A bullet fired from the default player height at the default speed takes 59 moves to leave. */
  lemma DefaultBulletLifetime(b: Bullet)
    requires b.y == 580.0 && b.speed == 10.0
    ensures Lifetime(b) == 59
    ensures Flown(b, 58).y == 0.0
  {
    assert b.y / b.speed == 58.0;
    TimesIsProduct(b.speed, 58);
  }

  /** The quotient of a height by a positive speed, scaled back, is that height. */
  lemma Quotient(a: real, y: real)
    requires 0.0 < a && 0.0 <= y
    ensures a * (y / a) == y && 0.0 <= y / a
  {
  }

  /** One move more than the whole quotient climbs past the height. */
  lemma PastTop(a: real, y: real)
    requires 0.0 < a && 0.0 <= y
    ensures 0 <= (y / a).Floor && Times(a, ((y / a).Floor + 1) as nat) > y
  {
    var q := y / a;
    Quotient(a, y);
    var n: nat := (q.Floor + 1) as nat;
    TimesIsProduct(a, n);
    assert q < n as real;
    Scale(a, q, n as real);
  }

  /** At most the whole quotient of moves stays at or below the height. */
  lemma BelowTop(a: real, y: real, m: nat)
    requires 0.0 < a && 0.0 <= y && m <= (y / a).Floor
    ensures Times(a, m) <= y
  {
    var q := y / a;
    Quotient(a, y);
    TimesIsProduct(a, m);
    assert m as real <= q;
    Scale(a, m as real, q);
  }

  /** Scaling by a positive factor keeps the order. */
  lemma Scale(a: real, x: real, y: real)
    requires 0.0 < a
    ensures x <= y ==> a * x <= a * y
    ensures x < y ==> a * x < a * y
  {
  }

  /**
    Hit-tests one moved bullet (key `id`) against every enemy present. The
    loop does not stop at the first hit: each enemy the bullet touches is
    removed and earns the reward, and the bullet is removed once it has hit.
   */
  method Strike(id: nat, bullet: Bullet, enemies: map<nat, Enemy>, bullets: map<nat, Bullet>, score: int)
    returns (enemies': map<nat, Enemy>, bullets': map<nat, Bullet>, score': int)
    ensures forall k :: k in enemies' <==> k in enemies && !Hits(bullet, enemies[k])
    ensures forall k :: k in enemies' ==> enemies'[k] == enemies[k]
    ensures bullets' == if exists k :: k in enemies && Hits(bullet, enemies[k]) then RemoveBullet(bullets, id) else bullets
    ensures score' == score + KillReward * (|enemies| - |enemies'|)
  {
    enemies', bullets', score' := enemies, bullets, score;
    var pending: set<nat> := enemies.Keys;
    while pending != {}
      invariant pending <= enemies.Keys
      invariant forall k :: k in enemies' <==> k in enemies && (k in pending || !Hits(bullet, enemies[k]))
      invariant forall k :: k in enemies' ==> enemies'[k] == enemies[k]
      invariant bullets' == if exists k :: k in enemies && k !in pending && Hits(bullet, enemies[k])
                            then RemoveBullet(bullets, id) else bullets
      invariant score' == score + KillReward * (|enemies| - |enemies'|)
      decreases pending
    {
      var enemyId := Smallest(pending);
      if Hits(bullet, enemies'[enemyId]) {
        score' := score' + KillReward;
        enemies' := RemoveEnemy(enemies', enemyId);
        bullets' := RemoveBullet(bullets', id);
      }
      pending := pending - {enemyId};
    }
  }

  /** No bullet id lies in [lo, hi): the threshold can move across the gap. */
  lemma ShotBelowGap(bullets: map<nat, Bullet>, e: Enemy, lo: int, hi: int)
    requires lo <= hi
    requires forall j :: j in bullets ==> j < lo || hi <= j
    ensures ShotBelow(bullets, e, hi) <==> ShotBelow(bullets, e, lo)
  {
    if ShotBelow(bullets, e, hi) {
      var j :| j in bullets && j < hi && Hits(Moved(bullets[j]), e);
      assert j < lo;
    }
  }

  /** Moving the threshold past bullet `id` adds exactly that bullet's hits. */
  lemma ShotBelowNext(bullets: map<nat, Bullet>, e: Enemy, id: nat)
    requires id in bullets
    ensures ShotBelow(bullets, e, id + 1) <==> ShotBelow(bullets, e, id) || Hits(Moved(bullets[id]), e)
  {
    if ShotBelow(bullets, e, id + 1) && !Hits(Moved(bullets[id]), e) {
      var j :| j in bullets && j < id + 1 && Hits(Moved(bullets[j]), e);
      assert j < id;
    }
  }

  /** Once the threshold is above every id, it covers all bullets. */
  lemma ShotBelowAll(bullets: map<nat, Bullet>, e: Enemy, bound: int)
    requires forall j :: j in bullets ==> j < bound
    ensures ShotBelow(bullets, e, bound) <==> ShotDown(bullets, e)
  {
  }

  /** The enemies left once every bullet with an id below `bound` has been visited. */
  ghost predicate EnemiesVisited(s: State, bound: int, enemies: map<nat, Enemy>)
  {
    && (forall k :: k in enemies <==> k in s.enemies && !ShotBelow(s.bullets, s.enemies[k], bound))
    && (forall k :: k in enemies ==> enemies[k] == s.enemies[k])
  }

  /** The bullets once every bullet with an id below `bound` has been visited. */
  ghost predicate BulletsVisited(s: State, bound: int, bullets: map<nat, Bullet>)
  {
    && (forall k :: k in bullets <==> k in s.bullets && (bound <= k || Survives(s.bullets, s.enemies, k)))
    && (forall k :: k in bullets ==> bullets[k] == (if bound <= k then s.bullets[k] else Moved(s.bullets[k])))
  }

  /** The loop state of UpdateBullets once every bullet with an id below `bound` has been visited. */
  ghost predicate Visited(s: State, bound: int, bullets: map<nat, Bullet>, enemies: map<nat, Enemy>, score: int)
  {
    && EnemiesVisited(s, bound, enemies)
    && BulletsVisited(s, bound, bullets)
    && enemies.Keys <= s.enemies.Keys
    && score == s.game.score + KillReward * (|s.enemies| - |enemies|)
  }

  /** No bullet id lies in [bound, id): passing bullet `id` adds exactly its hits. */
  lemma ThresholdStep(s: State, bound: int, id: nat, e: Enemy)
    requires id in s.bullets && bound <= id
    requires forall j :: j in s.bullets ==> j < bound || id <= j
    ensures ShotBelow(s.bullets, e, id) <==> ShotBelow(s.bullets, e, bound)
    ensures ShotBelow(s.bullets, e, id + 1) <==> ShotBelow(s.bullets, e, bound) || Hits(Moved(s.bullets[id]), e)
  {
    ShotBelowGap(s.bullets, e, bound, id);
    ShotBelowNext(s.bullets, e, id);
  }

  /** The enemies bullet `id` does not hit are those no bullet up to `id` hits. */
  lemma VisitEnemies(s: State, bound: int, id: nat, enemies: map<nat, Enemy>, enemies': map<nat, Enemy>)
    requires id in s.bullets && bound <= id
    requires forall j :: j in s.bullets ==> j < bound || id <= j
    requires EnemiesVisited(s, bound, enemies)
    requires forall k :: k in enemies' <==> k in enemies && !Hits(Moved(s.bullets[id]), enemies[k])
    requires forall k :: k in enemies' ==> enemies'[k] == enemies[k]
    ensures EnemiesVisited(s, id + 1, enemies')
  {
    forall e | e in s.enemies
      ensures ShotBelow(s.bullets, s.enemies[e], id + 1)
          <==> ShotBelow(s.bullets, s.enemies[e], bound) || Hits(Moved(s.bullets[id]), s.enemies[e])
    {
      ThresholdStep(s, bound, id, s.enemies[e]);
    }
  }

  /** Bullet `id` hits an enemy still alive exactly when it scores. */
  lemma HitAliveIsScore(s: State, bound: int, id: nat, enemies: map<nat, Enemy>)
    requires id in s.bullets && bound <= id
    requires forall j :: j in s.bullets ==> j < bound || id <= j
    requires EnemiesVisited(s, bound, enemies)
    ensures (exists k :: k in enemies && Hits(Moved(s.bullets[id]), enemies[k])) <==> Scores(s.bullets, s.enemies, id)
  {
    var bullet := Moved(s.bullets[id]);
    if exists k :: k in enemies && Hits(bullet, enemies[k]) {
      var k :| k in enemies && Hits(bullet, enemies[k]);
      ThresholdStep(s, bound, id, s.enemies[k]);
      assert k in s.enemies && Hits(bullet, s.enemies[k]) && !ShotBelow(s.bullets, s.enemies[k], id);
    }
    if Scores(s.bullets, s.enemies, id) {
      var k :| k in s.enemies && Hits(bullet, s.enemies[k]) && !ShotBelow(s.bullets, s.enemies[k], id);
      ThresholdStep(s, bound, id, s.enemies[k]);
      assert k in enemies;
    }
  }

  /**
    What visiting one bullet does: `bullet` is its moved self; it leaves the
    map when it passed the top edge or hit an enemy; the enemies it hits
    are removed and each earns the reward; nothing else changes.
   */
  ghost predicate BulletStep(id: nat, bullet: Bullet,
                             bullets: map<nat, Bullet>, enemies: map<nat, Enemy>, score: int,
                             bullets': map<nat, Bullet>, enemies': map<nat, Enemy>, score': int)
  {
    && (forall k :: k in enemies' <==> k in enemies && !Hits(bullet, enemies[k]))
    && (forall k :: k in enemies' ==> enemies'[k] == enemies[k])
    && (forall k :: k != id ==> (k in bullets' <==> k in bullets))
    && (forall k :: k != id && k in bullets' ==> bullets'[k] == bullets[k])
    && (id in bullets' <==> bullet.y >= 0.0 && !(exists k :: k in enemies && Hits(bullet, enemies[k])))
    && (id in bullets' ==> bullets'[id] == bullet)
    && score' == score + KillReward * (|enemies| - |enemies'|)
  }

  /** The body of the bullet loop for bullet `id`: move it, drop it past the top, hit-test it. */
  method Fly(id: nat, bullets: map<nat, Bullet>, enemies: map<nat, Enemy>, score: int)
    returns (bullets': map<nat, Bullet>, enemies': map<nat, Enemy>, score': int)
    requires id in bullets
    ensures BulletStep(id, Moved(bullets[id]), bullets, enemies, score, bullets', enemies', score')
  {
    var bullet := Moved(bullets[id]);
    bullets' := bullets[id := bullet];
    if bullet.y < 0.0 {
      bullets' := RemoveBullet(bullets', id);
    }
    enemies', bullets', score' := Strike(id, bullet, enemies, bullets', score);
  }

  /** Visiting bullet `id`, the next one in ascending order, extends the visited prefix past it. */
  lemma VisitNext(s: State, bound: int, id: nat,
                  bullets: map<nat, Bullet>, enemies: map<nat, Enemy>, score: int,
                  bullets': map<nat, Bullet>, enemies': map<nat, Enemy>, score': int)
    requires id in s.bullets && bound <= id
    requires forall j :: j in s.bullets ==> j < bound || id <= j
    requires Visited(s, bound, bullets, enemies, score)
    requires BulletStep(id, Moved(s.bullets[id]), bullets, enemies, score, bullets', enemies', score')
    ensures Visited(s, id + 1, bullets', enemies', score')
  {
    VisitEnemies(s, bound, id, enemies, enemies');
    VisitBullets(s, bound, id, bullets, enemies, score, bullets', enemies', score');
    assert enemies'.Keys <= enemies.Keys;
  }

  /** The bullets part of VisitNext: bullet `id` is kept, moved, exactly when it survives. */
  lemma VisitBullets(s: State, bound: int, id: nat,
                     bullets: map<nat, Bullet>, enemies: map<nat, Enemy>, score: int,
                     bullets': map<nat, Bullet>, enemies': map<nat, Enemy>, score': int)
    requires id in s.bullets && bound <= id
    requires forall j :: j in s.bullets ==> j < bound || id <= j
    requires EnemiesVisited(s, bound, enemies) && BulletsVisited(s, bound, bullets)
    requires BulletStep(id, Moved(s.bullets[id]), bullets, enemies, score, bullets', enemies', score')
    ensures BulletsVisited(s, id + 1, bullets')
  {
    HitAliveIsScore(s, bound, id, enemies);
  }

  /** The loop state of UpdateBullets, with `pending` the ids not yet visited. */
  ghost predicate Visiting(s: State, bound: int, pending: set<nat>,
                           bullets: map<nat, Bullet>, enemies: map<nat, Enemy>, score: int)
  {
    && pending <= s.bullets.Keys
    && (forall k :: k in s.bullets ==> (k in pending <==> bound <= k))
    && Visited(s, bound, bullets, enemies, score)
  }

  /** Visiting the smallest pending bullet moves it out of `pending` and past the threshold. */
  lemma VisitStep(s: State, bound: int, pending: set<nat>, id: nat,
                  bullets: map<nat, Bullet>, enemies: map<nat, Enemy>, score: int,
                  bullets': map<nat, Bullet>, enemies': map<nat, Enemy>, score': int)
    requires Visiting(s, bound, pending, bullets, enemies, score)
    requires id in pending && forall k :: k in pending ==> id <= k
    requires id in bullets && BulletStep(id, Moved(bullets[id]), bullets, enemies, score, bullets', enemies', score')
    ensures Visiting(s, id + 1, pending - {id}, bullets', enemies', score')
  {
    VisitNext(s, bound, id, bullets, enemies, score, bullets', enemies', score');
  }

  /** Once every bullet has been visited, the loop state is the outcome of the whole tick. */
  lemma VisitedAll(s: State, bound: int, bullets: map<nat, Bullet>, enemies: map<nat, Enemy>, score: int)
    requires Visiting(s, bound, {}, bullets, enemies, score)
    ensures forall k :: k in enemies <==> k in s.enemies && !ShotDown(s.bullets, s.enemies[k])
    ensures forall k :: k in enemies ==> enemies[k] == s.enemies[k]
    ensures forall k :: k in bullets <==> k in s.bullets && Survives(s.bullets, s.enemies, k)
    ensures forall k :: k in bullets ==> bullets[k] == Moved(s.bullets[k])
    ensures score == s.game.score + KillReward * (|s.enemies| - |enemies|)
    ensures |enemies| <= |s.enemies|
  {
    forall e | e in s.enemies
      ensures ShotBelow(s.bullets, s.enemies[e], bound) <==> ShotDown(s.bullets, s.enemies[e])
    {
      ShotBelowAll(s.bullets, s.enemies[e], bound);
    }
    SubsetSize(enemies.Keys, s.enemies.Keys);
  }

  /**
    One tick of the bullets, visiting them in ascending id order. Every
    bullet moves up by its speed; an enemy is destroyed exactly when some
    moved bullet hits it; a bullet is dropped when it passed the top edge or
    destroyed an enemy; each destroyed enemy adds the reward to the score.
   */
  method UpdateBullets(s: State) returns (r: State)
    ensures r == s.(bullets := r.bullets, enemies := r.enemies, game := s.game.(score := r.game.score))
    ensures forall k :: k in r.enemies <==> k in s.enemies && !ShotDown(s.bullets, s.enemies[k])
    ensures forall k :: k in r.enemies ==> r.enemies[k] == s.enemies[k]
    ensures forall k :: k in r.bullets <==> k in s.bullets && Survives(s.bullets, s.enemies, k)
    ensures forall k :: k in r.bullets ==> r.bullets[k] == Moved(s.bullets[k])
    ensures r.game.score == s.game.score + KillReward * (|s.enemies| - |r.enemies|)
    ensures |r.enemies| <= |s.enemies|
  {
    var bullets: map<nat, Bullet> := s.bullets;
    var enemies: map<nat, Enemy> := s.enemies;
    var score := s.game.score;
    var pending: set<nat> := s.bullets.Keys;
    ghost var bound: int := 0;
    while pending != {}
      invariant Visiting(s, bound, pending, bullets, enemies, score)
      decreases pending
    {
      var id := Smallest(pending);
      assert id in bullets;
      ghost var before, alive, tally := bullets, enemies, score;
      bullets, enemies, score := Fly(id, bullets, enemies, score);
      VisitStep(s, bound, pending, id, before, alive, tally, bullets, enemies, score);
      pending := pending - {id};
      bound := id + 1;
    }
    VisitedAll(s, bound, bullets, enemies, score);
    r := s.(bullets := bullets, enemies := enemies, game := s.game.(score := score));
  }
}
