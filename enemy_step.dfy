/**
  The per-tick enemy step (`updateEnemies`): every enemy falls by its speed
  and drifts sideways, and the first enemy whose next step would cross the
  bottom edge ends the game on the spot, leaving the enemies after it where
  they were.
 */
module EnemyStep {
  import opened Ids
  import opened World
  import opened Progress

  /**
    An enemy after its move: down by its speed, then sideways by
    cos(y/10) * (3 + level/4) at the new height. `cos` stands for the
    floating-point cosine, which is not modelled.
   */
  function Advance(e: Enemy, level: nat, cos: real -> real): (r: Enemy)
    ensures r.id == e.id && r.speed == e.speed && r.width == e.width && r.height == e.height
    ensures r.y == e.y + e.speed
  {
    var y := e.y + e.speed;
    e.(y := y, x := e.x + cos(y / 10.0) * (3.0 + (level as real) / 4.0))
  }

  /** The game-over test, applied to the moved enemy: one more step would pass the bottom. */
  predicate Breaches(e: Enemy, height: real)
  {
    e.y + e.speed + e.height > height
  }

  /** Some enemy with an id below `bound` breaches once moved. */
  ghost predicate BreachBelow(s: State, cos: real -> real, bound: int)
  {
    exists j :: j in s.enemies && j < bound && Breaches(Advance(s.enemies[j], s.game.level, cos), s.game.height)
  }

  /** Some enemy breaches once moved. */
  ghost predicate AnyBreach(s: State, cos: real -> real)
  {
    exists j :: j in s.enemies && Breaches(Advance(s.enemies[j], s.game.level, cos), s.game.height)
  }

  /** No enemy id lies in [lo, id): passing enemy `id` adds exactly its own breach. */
  lemma BreachStep(s: State, cos: real -> real, lo: int, id: nat)
    requires id in s.enemies && lo <= id
    requires forall j :: j in s.enemies ==> j < lo || id <= j
    ensures BreachBelow(s, cos, id) <==> BreachBelow(s, cos, lo)
    ensures BreachBelow(s, cos, id + 1)
        <==> BreachBelow(s, cos, lo) || Breaches(Advance(s.enemies[id], s.game.level, cos), s.game.height)
  {
    if BreachBelow(s, cos, id + 1) {
      var j :| j in s.enemies && j < id + 1 && Breaches(Advance(s.enemies[j], s.game.level, cos), s.game.height);
      assert j < lo || j == id;
    }
  }

  /**
    The state of the loop of UpdateEnemies: enemies with an id below
    `bound` have been moved, the others are still waiting in `pending`, and
    none of the moved ones breached.
   */
  ghost predicate MovedBelow(s: State, cos: real -> real, bound: int, pending: set<nat>, enemies: map<nat, Enemy>)
  {
    && pending <= s.enemies.Keys
    && enemies.Keys == s.enemies.Keys
    && (forall k :: k in s.enemies ==> (k in pending <==> bound <= k))
    && (forall k :: k in s.enemies ==>
          enemies[k] == (if bound <= k then s.enemies[k] else Advance(s.enemies[k], s.game.level, cos)))
    && !BreachBelow(s, cos, bound)
  }

  /** Moving the smallest pending enemy, which does not breach, advances the loop. */
  lemma MoveNext(s: State, cos: real -> real, bound: int, pending: set<nat>, enemies: map<nat, Enemy>, id: nat)
    requires MovedBelow(s, cos, bound, pending, enemies)
    requires id in pending && forall k :: k in pending ==> id <= k
    requires !Breaches(Advance(enemies[id], s.game.level, cos), s.game.height)
    ensures MovedBelow(s, cos, id + 1, pending - {id}, enemies[id := Advance(enemies[id], s.game.level, cos)])
  {
    BreachStep(s, cos, bound, id);
  }

  /**
    When the smallest pending enemy breaches, the enemies moved so far,
    that one included, are the final outcome and some enemy breached.
   */
  lemma StopAt(s: State, cos: real -> real, bound: int, pending: set<nat>, enemies: map<nat, Enemy>, id: nat)
    requires MovedBelow(s, cos, bound, pending, enemies)
    requires id in pending && forall k :: k in pending ==> id <= k
    requires Breaches(Advance(enemies[id], s.game.level, cos), s.game.height)
    ensures AnyBreach(s, cos)
    ensures forall k :: k in s.enemies ==>
      enemies[id := Advance(enemies[id], s.game.level, cos)][k]
        == (if BreachBelow(s, cos, k) then s.enemies[k] else Advance(s.enemies[k], s.game.level, cos))
  {
    BreachStep(s, cos, bound, id);
    var moved := enemies[id := Advance(enemies[id], s.game.level, cos)];
    forall k | k in s.enemies
      ensures moved[k] == (if BreachBelow(s, cos, k) then s.enemies[k] else Advance(s.enemies[k], s.game.level, cos))
    {
      if k < id {
        assert k !in pending;
        BreachMono(s, cos, k, bound);
      } else if id < k {
        assert id in s.enemies && id < k;
        assert BreachBelow(s, cos, k);
      }
    }
  }

  /** A breach below a threshold is a breach below any higher one. */
  lemma BreachMono(s: State, cos: real -> real, lo: int, hi: int)
    requires lo <= hi
    ensures BreachBelow(s, cos, lo) ==> BreachBelow(s, cos, hi)
  {
    if BreachBelow(s, cos, lo) {
      var j :| j in s.enemies && j < lo && Breaches(Advance(s.enemies[j], s.game.level, cos), s.game.height);
      assert j < hi;
    }
  }

  /** Once nothing is pending, every enemy was moved and none breached. */
  lemma MovedAll(s: State, cos: real -> real, bound: int, enemies: map<nat, Enemy>)
    requires MovedBelow(s, cos, bound, {}, enemies)
    ensures !AnyBreach(s, cos)
    ensures forall k :: k in s.enemies ==>
      enemies[k] == (if BreachBelow(s, cos, k) then s.enemies[k] else Advance(s.enemies[k], s.game.level, cos))
  {
    if AnyBreach(s, cos) {
      var j :| j in s.enemies && Breaches(Advance(s.enemies[j], s.game.level, cos), s.game.height);
      assert BreachBelow(s, cos, bound);
    }
  }

  /**
    Moves the enemies in ascending id order. An enemy is moved exactly when
    no enemy with a smaller id breached; the game is over exactly when it
    already was or some enemy breaches.
   */
  method UpdateEnemies(s: State, cos: real -> real) returns (r: State)
    ensures r == s.(enemies := r.enemies, game := s.game.(gameOver := r.game.gameOver))
    ensures r.enemies.Keys == s.enemies.Keys
    ensures forall k :: k in s.enemies ==>
      r.enemies[k] == (if BreachBelow(s, cos, k) then s.enemies[k] else Advance(s.enemies[k], s.game.level, cos))
    ensures r.game.gameOver == (s.game.gameOver || AnyBreach(s, cos))
  {
    var enemies: map<nat, Enemy> := s.enemies;
    var pending: set<nat> := s.enemies.Keys;
    ghost var bound: int := 0;
    while pending != {}
      invariant MovedBelow(s, cos, bound, pending, enemies)
      decreases pending
    {
      var id := Smallest(pending);
      var enemy := Advance(enemies[id], s.game.level, cos);
      if Breaches(enemy, s.game.height) {
        StopAt(s, cos, bound, pending, enemies, id);
        enemies := enemies[id := enemy];
        r := GameOver(s.(enemies := enemies));
        return;
      }
      MoveNext(s, cos, bound, pending, enemies, id);
      enemies := enemies[id := enemy];
      pending := pending - {id};
      bound := id + 1;
    }
    MovedAll(s, cos, bound, enemies);
    r := s.(enemies := enemies);
  }
}
