/**
  The decorative starfield: twenty stars created at random positions
  (`createStarfield`) that fall at their own speed and wrap back to the top
  (`updateStars`). The random numbers the game draws are parameters here,
  one value per star id.
 */
module Starfield {
  import opened Ids
  import opened World

  const StarCount: nat := 20

  /** The random position and speed a new star is created with. */
  datatype Spawn = Spawn(x: real, y: real, speed: real)

  /** The random column and speed a star gets when it wraps to the top. */
  datatype Respawn = Respawn(x: real, speed: real)

  /** `floor(random * 50 + 5)` lies in 5 .. 54. */
  predicate SpeedInRange(v: real)
  {
    5.0 <= v <= 54.0
  }

  /** `floor(random * width + 1)` lies in 1 .. width, likewise for the height. */
  predicate SpawnInRange(p: Spawn, width: real, height: real)
  {
    1.0 <= p.x <= width && 1.0 <= p.y <= height && SpeedInRange(p.speed)
  }

  predicate RespawnInRange(p: Respawn, width: real)
  {
    1.0 <= p.x <= width && SpeedInRange(p.speed)
  }

  /** A star inside the field, falling at a speed the game can draw. */
  predicate StarInSky(star: Star, width: real, height: real)
  {
    1.0 <= star.x <= width && 0.0 <= star.y <= height && SpeedInRange(star.speed)
  }

  /** Every star is keyed by its own id and lies inside the field. */
  ghost predicate Sky(stars: map<nat, Star>, width: real, height: real)
  {
    forall k :: k in stars ==> stars[k].id == k && StarInSky(stars[k], width, height)
  }

  function NewStar(s: State, id: nat, p: Spawn): Star
  {
    Star(id, p.x, p.y, p.speed, s.starConfig.width, s.starConfig.height)
  }

  /** Replaces the stars with StarCount new ones, ids 0 .. StarCount-1. */
  method CreateStarfield(s: State, spawn: nat -> Spawn) returns (r: State)
    ensures r == s.(stars := r.stars)
    ensures forall k: nat :: k in r.stars <==> k < StarCount
    ensures |r.stars| == StarCount
    ensures forall k :: k in r.stars ==> r.stars[k] == NewStar(s, k, spawn(k))
    ensures (forall k: nat :: k < StarCount ==> SpawnInRange(spawn(k), s.game.width, s.game.height))
        ==> Sky(r.stars, s.game.width, s.game.height)
  {
    var stars: map<nat, Star> := map[];
    for i := 0 to StarCount
      invariant forall k: nat :: k in stars <==> k < i
      invariant forall k :: k in stars ==> stars[k] == NewStar(s, k, spawn(k))
    {
      stars := stars[i := NewStar(s, i, spawn(i))];
    }
    r := s.(stars := stars);
    CountKeys(stars, StarCount);
    if forall k: nat :: k < StarCount ==> SpawnInRange(spawn(k), s.game.width, s.game.height) {
      SpawnedSky(s, spawn, stars);
    }
  }

  /** Stars made from in-range random values lie inside the field. */
  lemma SpawnedSky(s: State, spawn: nat -> Spawn, stars: map<nat, Star>)
    requires forall k :: k in stars ==> stars[k] == NewStar(s, k, spawn(k))
    requires forall k :: k in stars ==> SpawnInRange(spawn(k), s.game.width, s.game.height)
    ensures Sky(stars, s.game.width, s.game.height)
  {
  }

  /**
    One star after one tick: it falls by its speed, and once below the
    bottom edge it restarts at the top with a fresh column and speed.
   */
  function StepStar(star: Star, height: real, drawn: Respawn): (r: Star)
    ensures r.id == star.id && r.width == star.width && r.height == star.height
    ensures star.y + star.speed <= height ==> r == star.(y := star.y + star.speed)
    ensures star.y + star.speed > height ==> r.y == 0.0 && r.x == drawn.x && r.speed == drawn.speed
    ensures 0.0 <= height ==> r.y <= height
  {
    var fallen := star.(y := star.y + star.speed);
    if fallen.y > height then fallen.(y := 0.0, x := drawn.x, speed := drawn.speed) else fallen
  }

  /** All stars after one tick; each star moves on its own. */
  function StarsAfter(stars: map<nat, Star>, height: real, respawn: nat -> Respawn): (r: map<nat, Star>)
    ensures r.Keys == stars.Keys
  {
    map k | k in stars :: StepStar(stars[k], height, respawn(k))
  }

  /** A tick keeps every star in the sky, whatever in-range values it draws. */
  lemma SkyPreserved(stars: map<nat, Star>, width: real, height: real, respawn: nat -> Respawn)
    requires Sky(stars, width, height)
    requires forall k :: k in stars ==> RespawnInRange(respawn(k), width)
    ensures Sky(StarsAfter(stars, height, respawn), width, height)
  {
    var after := StarsAfter(stars, height, respawn);
    forall k | k in after
      ensures after[k].id == k && StarInSky(after[k], width, height)
    {
      assert after[k] == StepStar(stars[k], height, respawn(k));
    }
  }

  /** Advances every star, visiting them in ascending id order. */
  method UpdateStars(s: State, respawn: nat -> Respawn) returns (r: State)
    ensures r == s.(stars := StarsAfter(s.stars, s.game.height, respawn))
    ensures |r.stars| == |s.stars|
  {
    var stars: map<nat, Star> := s.stars;
    var pending: set<nat> := s.stars.Keys;
    while pending != {}
      invariant pending <= s.stars.Keys
      invariant stars.Keys == s.stars.Keys
      invariant forall k :: k in stars ==>
        stars[k] == (if k in pending then s.stars[k] else StepStar(s.stars[k], s.game.height, respawn(k)))
      decreases pending
    {
      var id := Smallest(pending);
      stars := stars[id := StepStar(stars[id], s.game.height, respawn(id))];
      pending := pending - {id};
    }
    assert stars == StarsAfter(s.stars, s.game.height, respawn);
    r := s.(stars := stars);
  }
}
