/**
 * The game aggregate (class Game): one player, the bullets and aliens in play,
 * the score, the game-over flag, the difficulty state and the shot cooldown.
 * Key state, the clock and the random spawn position are parameters; drawing,
 * sound and the DOM are not part of this model.
 */
module Arcade {
  import opened Geometry
  import opened Entities
  import opened Pacing
  import opened Passes

  /** Milliseconds that must pass, strictly, between two shots. */
  const Cooldown: int := 300

  /** Each bullet with the rectangle it occupies now. */
  function BulletViews(bullets: seq<Bullet>): (r: seq<Tagged<Bullet>>)
    reads bullets
    ensures |r| == |bullets| && forall i :: 0 <= i < |bullets| ==> r[i] == Tagged(bullets[i], bullets[i].Bounds())
  {
    seq(|bullets|, i requires 0 <= i < |bullets| reads bullets => Tagged(bullets[i], bullets[i].Bounds()))
  }

  /** Each alien with the rectangle it occupies now. */
  function AlienViews(aliens: seq<Alien>): (r: seq<Tagged<Alien>>)
    reads aliens
    ensures |r| == |aliens| && forall i :: 0 <= i < |aliens| ==> r[i] == Tagged(aliens[i], aliens[i].Bounds())
  {
    seq(|aliens|, i requires 0 <= i < |aliens| reads aliens => Tagged(aliens[i], aliens[i].Bounds()))
  }

  /** Snapshots of duplicate-free lists hold each object once. */
  lemma SnapshotsDistinct(aliens: seq<Alien>, bullets: seq<Bullet>)
    requires Distinct(aliens) && Distinct(bullets)
    ensures DistinctObjects(AlienViews(aliens)) && DistinctObjects(BulletViews(bullets))
  {
  }

  /** The snapshot after one tick of flight: every bullet up by its speed. */
  function Climb(bullets: seq<Tagged<Bullet>>): seq<Tagged<Bullet>>
  {
    seq(|bullets|, i requires 0 <= i < |bullets| =>
      var b := bullets[i]; Tagged(b.obj, b.box.(y := b.box.y - b.obj.speed)))
  }

  /** The snapshot after one tick of descent: every alien down by its own speed. */
  function Descend(aliens: seq<Tagged<Alien>>): seq<Tagged<Alien>>
  {
    seq(|aliens|, i requires 0 <= i < |aliens| =>
      var a := aliens[i]; Tagged(a.obj, a.box.(y := a.box.y + a.obj.speed)))
  }

  /** Bullets just fired at height y, where they stand. */
  function Launched(shot: seq<Bullet>, y: real): seq<Tagged<Bullet>>
  {
    seq(|shot|, i requires 0 <= i < |shot| => Tagged(shot[i], Rect(shot[i].x, y, shot[i].width, shot[i].height)))
  }

  /** The collision half of a tick on two snapshots: prune, the lethal pass, then the scoring pass. */
  function Collide(aliens: seq<Tagged<Alien>>, bullets: seq<Tagged<Bullet>>, player: Rect, canvasHeight: real): Outcome<Alien, Bullet>
  {
    Scoring(Survivors(aliens, player, canvasHeight), Visible(bullets))
  }

  /**
   * The state a tick leaves behind: every bullet is still below the top edge,
   * no alien is lethal, and no bullet overlaps an alien.
   */
  ghost predicate Settled(aliens: seq<Alien>, bullets: seq<Bullet>, player: Rect, canvasHeight: real)
    reads aliens, bullets
  {
    && (forall j :: 0 <= j < |bullets| ==> OnScreen(bullets[j].Bounds()))
    && (forall i :: 0 <= i < |aliens| ==> !Lethal(aliens[i].Bounds(), player, canvasHeight))
    && (forall i, j :: 0 <= i < |aliens| && 0 <= j < |bullets| ==> !CollidesWith(bullets[j].Bounds(), aliens[i].Bounds()))
  }

  /** Lists whose snapshots are what the passes kept inherit what the passes promise. */
  lemma SettledByPasses(aliens: seq<Alien>, bullets: seq<Bullet>, player: Rect, canvasHeight: real, r: Outcome<Alien, Bullet>)
    requires AlienViews(aliens) == r.aliens && BulletViews(bullets) == r.bullets
    requires forall b :: b in r.bullets ==> OnScreen(b.box)
    requires forall a :: a in r.aliens ==> !Lethal(a.box, player, canvasHeight)
    requires forall a, b :: a in r.aliens && b in r.bullets ==> !CollidesWith(b.box, a.box)
    ensures Settled(aliens, bullets, player, canvasHeight)
  {
  }

  /** A fraction in [0, 1) of a non-negative length lies in [0, length], strictly below when positive. */
  lemma FractionOf(f: real, len: real)
    requires 0.0 <= f < 1.0 && len >= 0.0
    ensures 0.0 <= f * len <= len
    ensures len > 0.0 ==> f * len < len
  {
    assert len - f * len == (1.0 - f) * len;
  }

  /**
   * Where a spawn timer puts a new alien, given the random draw in [0, 1):
   * never left of the canvas and, when the canvas is at least one alien wide,
   * never past its right edge.
   */
  function SpawnX(random: real, canvasWidth: real): (x: real)
    requires 0.0 <= random < 1.0
    ensures canvasWidth >= 40.0 ==> 0.0 <= x && x + 40.0 <= canvasWidth
    ensures canvasWidth > 40.0 ==> x < canvasWidth - 40.0
  {
    var room := canvasWidth - 40.0;
    if room >= 0.0 then
      FractionOf(random, room);
      random * room
    else
      random * room
  }

  class Game {
    const canvasWidth: real
    const canvasHeight: real
    var player: Player
    var bullets: seq<Bullet>
    var aliens: seq<Alien>
    /** The clock reading of the last shot, in milliseconds. */
    var lastShoot: int
    var isGameOver: bool
    var score: nat
    /** Aliens destroyed since the last (re)start. */
    ghost var destroyed: nat
    var difficultyTimer: nat
    var alienSpeed: real
    var spawnInterval: int
    /** How many periodic spawn timers have been armed; none is ever cancelled. */
    var spawners: nat

    ghost predicate Valid()
      reads this, player
    {
      && Distinct(bullets)
      && Distinct(aliens)
      && score == 10 * destroyed
      && alienSpeed >= 1.0
      && MinInterval <= spawnInterval <= Initial.spawnInterval
      && (canvasWidth >= player.width ==> 0.0 <= player.x <= canvasWidth - player.width)
    }

    function Level(): Difficulty
      reads this
    {
      Difficulty(difficultyTimer, alienSpeed, spawnInterval)
    }

    constructor (canvasWidth: real, canvasHeight: real)
      ensures Valid()
      ensures this.canvasWidth == canvasWidth && this.canvasHeight == canvasHeight
      ensures fresh(player) && player.x == canvasWidth / 2.0 - 20.0 && player.y == canvasHeight - 40.0
      ensures bullets == [] && aliens == [] && lastShoot == 0 && !isGameOver && score == 0
      ensures Level() == Initial && spawners == 1
    {
      this.canvasWidth := canvasWidth;
      this.canvasHeight := canvasHeight;
      player := new Player(canvasWidth / 2.0 - 20.0, canvasHeight - 40.0);
      bullets := [];
      aliens := [];
      lastShoot := 0;
      isGameOver := false;
      score := 0;
      destroyed := 0;
      difficultyTimer := 0;
      alienSpeed := 1.0;
      spawnInterval := 2000;
      spawners := 1;
    }

    /**
     * The restart button: a fresh player at the start position, no bullets,
     * no aliens, score 0, play resumes and one more spawn timer is armed. The
     * difficulty state and the shot timestamp carry over.
     */
    method Restart()
      requires Valid()
      modifies this
      ensures Valid()
      ensures !isGameOver && aliens == [] && bullets == [] && score == 0
      ensures fresh(player) && player.x == canvasWidth / 2.0 - 20.0 && player.y == canvasHeight - 40.0
      ensures Level() == old(Level()) && lastShoot == old(lastShoot)
      ensures spawners == old(spawners) + 1
    {
      isGameOver := false;
      aliens := [];
      bullets := [];
      score := 0;
      destroyed := 0;
      player := new Player(canvasWidth / 2.0 - 20.0, canvasHeight - 40.0);
      spawners := spawners + 1;
    }

    /**
     * What one firing of a spawn timer does: a new alien at the given x on
     * the top edge, moving at the current alien speed. Timers keep firing
     * after the game is over.
     */
    method Spawn(x: real)
      requires Valid()
      modifies this
      ensures Valid()
      ensures |aliens| == |old(aliens)| + 1 && aliens[..|old(aliens)|] == old(aliens)
      ensures var a := aliens[|old(aliens)|];
        fresh(a) && a.x == x && a.y == 0.0 && a.speed == alienSpeed
      ensures player == old(player) && bullets == old(bullets) && score == old(score)
      ensures isGameOver == old(isGameOver) && Level() == old(Level())
      ensures lastShoot == old(lastShoot) && spawners == old(spawners)
    {
      var a := new Alien(x, 0.0, alienSpeed);
      aliens := aliens + [a];
    }

    /**
     * Fires one bullet from the centre of the player's nose if more than 300 ms
     * passed since the last shot; otherwise does nothing.
     */
    method Shoot(now: int)
      requires Valid()
      modifies this
      ensures Valid()
      ensures now - old(lastShoot) > Cooldown ==>
        && lastShoot == now
        && |bullets| == |old(bullets)| + 1 && bullets[..|old(bullets)|] == old(bullets)
        && var b := bullets[|old(bullets)|];
           fresh(b) && b.x == player.x + 17.5 && b.y == player.y
      ensures now - old(lastShoot) <= Cooldown ==> lastShoot == old(lastShoot) && bullets == old(bullets)
      ensures player == old(player) && aliens == old(aliens) && score == old(score)
      ensures isGameOver == old(isGameOver) && Level() == old(Level()) && spawners == old(spawners)
    {
      if now - lastShoot > Cooldown {
        var b := new Bullet(player.x + player.width / 2.0 - 2.5, player.y);
        bullets := bullets + [b];
        lastShoot := now;
      }
    }

    /** Moves every bullet up by its speed, one at a time. */
    method AdvanceBullets()
      requires Valid()
      modifies bullets
      ensures Valid()
      ensures forall b :: b in bullets ==> b.y == old(b.y) - 8.0
      ensures BulletViews(bullets) == Climb(old(BulletViews(bullets)))
      ensures AlienViews(aliens) == old(AlienViews(aliens))
    {
      var i := 0;
      while i < |bullets|
        invariant 0 <= i <= |bullets|
        invariant forall k :: 0 <= k < i ==> bullets[k].y == old(bullets[k].y) - 8.0
        invariant forall k :: i <= k < |bullets| ==> bullets[k].y == old(bullets[k].y)
      {
        bullets[i].Update();
        i := i + 1;
      }
    }

    /** Moves every alien down by its own speed, one at a time. */
    method AdvanceAliens()
      requires Valid()
      modifies aliens
      ensures Valid()
      ensures forall a :: a in aliens ==> a.y == old(a.y) + a.speed
      ensures AlienViews(aliens) == Descend(old(AlienViews(aliens)))
      ensures BulletViews(bullets) == old(BulletViews(bullets))
    {
      var i := 0;
      while i < |aliens|
        invariant 0 <= i <= |aliens|
        invariant forall k :: 0 <= k < i ==> aliens[k].y == old(aliens[k].y) + aliens[k].speed
        invariant forall k :: i <= k < |aliens| ==> aliens[k].y == old(aliens[k].y)
      {
        aliens[i].Update();
        i := i + 1;
      }
    }

    /** Every bullet flies, then every alien descends, each by its own speed. */
    method Fly()
      requires Valid()
      modifies bullets, aliens
      ensures Valid()
      ensures BulletViews(bullets) == Climb(old(BulletViews(bullets)))
      ensures AlienViews(aliens) == Descend(old(AlienViews(aliens)))
    {
      AdvanceBullets();
      AdvanceAliens();
    }

    /**
     * The difficulty controller's tick; every escalation also arms one more
     * spawn timer at the new period.
     */
    method Escalate()
      requires Valid()
      modifies this
      ensures Valid()
      ensures Level() == NextDifficulty(old(Level()))
      ensures spawners == old(spawners) + (if Escalates(difficultyTimer) then 1 else 0)
      ensures player == old(player) && bullets == old(bullets) && aliens == old(aliens)
      ensures score == old(score) && isGameOver == old(isGameOver) && lastShoot == old(lastShoot)
      ensures AlienViews(aliens) == old(AlienViews(aliens)) && BulletViews(bullets) == old(BulletViews(bullets))
    {
      difficultyTimer := difficultyTimer + 1;
      if difficultyTimer % 6000 == 0 {
        alienSpeed := alienSpeed + 0.2;
        spawnInterval := NextInterval(spawnInterval);
        spawners := spawners + 1;
      }
    }

    /** The first half of a tick's input handling: move, then shoot if space is held. */
    method Act(left: bool, right: bool, space: bool, now: int) returns (ghost shot: seq<Bullet>)
      requires Valid()
      modifies this, player
      ensures Valid()
      ensures player == old(player)
      ensures player.x == Clamp(old(player.x) + Delta(left, right), canvasWidth - player.width)
      ensures player.y == old(player.y)
      ensures |shot| <= 1 && (shot != [] <==> space && now - old(lastShoot) > Cooldown)
      ensures bullets == old(bullets) + shot
      ensures forall b :: b in shot ==> fresh(b) && b.x == player.x + 17.5 && b.y == player.y
      ensures lastShoot == if shot != [] then now else old(lastShoot)
      ensures aliens == old(aliens) && score == old(score) && isGameOver == old(isGameOver)
      ensures Level() == old(Level()) && spawners == old(spawners)
      ensures AlienViews(aliens) == old(AlienViews(aliens))
      ensures BulletViews(bullets) == old(BulletViews(bullets)) + Launched(shot, player.y)
    {
      player.Move(left, right, canvasWidth);
      shot := [];
      if space {
        Shoot(now);
        shot := bullets[|old(bullets)|..];
        assert bullets == old(bullets) + shot;
      }
    }

    /**
     * The three filter passes of a tick on the objects where they stand:
     * what they keep, how many aliens they destroy, and whether an alien
     * was lethal. Nothing is changed yet.
     */
    method Collisions() returns (outcome: Outcome<Alien, Bullet>, hit: bool)
      requires Valid()
      ensures outcome == Collide(AlienViews(aliens), BulletViews(bullets), player.Bounds(), canvasHeight)
      ensures var before := AlienViews(aliens);
        hit <==> exists i :: 0 <= i < |before| && Lethal(before[i].box, player.Bounds(), canvasHeight)
      ensures Distinct(Objects(outcome.aliens)) && Distinct(Objects(outcome.bullets))
      ensures forall v :: v in outcome.aliens ==> v.box == v.obj.Bounds()
      ensures forall v :: v in outcome.bullets ==> v.box == v.obj.Bounds()
    {
      var box := player.Bounds();
      var before := AlienViews(aliens);
      var flying := BulletViews(bullets);
      SnapshotsDistinct(aliens, bullets);
      PassesKeepDistinct(before, flying, box, canvasHeight);
      CollisionPassesSpec(before, flying, box, canvasHeight);
      outcome, hit := CollisionPasses(before, flying, box, canvasHeight);
    }

    /** Stores what the passes kept, sets game over on a lethal alien and adds 10 points per kill. */
    method Commit(outcome: Outcome<Alien, Bullet>, hit: bool)
      requires Valid()
      requires Distinct(Objects(outcome.aliens)) && Distinct(Objects(outcome.bullets))
      requires forall v :: v in outcome.aliens ==> v.box == v.obj.Bounds()
      requires forall v :: v in outcome.bullets ==> v.box == v.obj.Bounds()
      modifies this
      ensures Valid()
      ensures aliens == Objects(outcome.aliens) && bullets == Objects(outcome.bullets)
      ensures AlienViews(aliens) == outcome.aliens && BulletViews(bullets) == outcome.bullets
      ensures isGameOver == (old(isGameOver) || hit)
      ensures score == old(score) + 10 * outcome.kills
      ensures player == old(player) && Level() == old(Level())
      ensures lastShoot == old(lastShoot) && spawners == old(spawners)
    {
      aliens := Objects(outcome.aliens);
      bullets := Objects(outcome.bullets);
      isGameOver := isGameOver || hit;
      score := score + 10 * outcome.kills;
      destroyed := destroyed + outcome.kills;
    }

    /**
     * The collision half of a tick: prune the bullets above the top edge, run
     * the lethal pass, then the scoring pass. The scoring pass runs even when
     * the lethal pass has just ended the game.
     */
    method ResolveCollisions()
      requires Valid()
      modifies this
      ensures Valid()
      ensures player == old(player) && Level() == old(Level())
      ensures lastShoot == old(lastShoot) && spawners == old(spawners)
      ensures var before := old(AlienViews(aliens));
        isGameOver <==> old(isGameOver) || exists i :: 0 <= i < |before| && Lethal(before[i].box, old(player.Bounds()), canvasHeight)
      ensures var outcome := Collide(old(AlienViews(aliens)), old(BulletViews(bullets)), old(player.Bounds()), canvasHeight);
        && aliens == Objects(outcome.aliens) && bullets == Objects(outcome.bullets)
        && AlienViews(aliens) == outcome.aliens && BulletViews(bullets) == outcome.bullets
        && score == old(score) + 10 * outcome.kills
      ensures Settled(aliens, bullets, player.Bounds(), canvasHeight)
    {
      ghost var before, flying, box := AlienViews(aliens), BulletViews(bullets), player.Bounds();
      var outcome, hit := Collisions();
      Commit(outcome, hit);
      CollisionPassesSpec(before, flying, box, canvasHeight);
      SettledByPasses(aliens, bullets, box, canvasHeight, outcome);
    }

    /**
     * The motion half of a tick: the player moves, a shot is taken if space
     * is held, every bullet and alien moves, and the difficulty controller
     * ticks. The ghost result is the bullet fired, if any.
     */
    method Advance(left: bool, right: bool, space: bool, now: int) returns (ghost shot: seq<Bullet>)
      requires Valid()
      modifies this, player, bullets, aliens
      ensures Valid()
      ensures player == old(player)
      ensures player.x == Clamp(old(player.x) + Delta(left, right), canvasWidth - player.width)
      ensures player.y == old(player.y)
      ensures |shot| <= 1 && (shot != [] <==> space && now - old(lastShoot) > Cooldown)
      ensures bullets == old(bullets) + shot && aliens == old(aliens)
      ensures forall b :: b in shot ==> fresh(b) && b.x == player.x + 17.5
      ensures lastShoot == (if shot != [] then now else old(lastShoot))
      ensures Level() == NextDifficulty(old(Level()))
      ensures spawners == old(spawners) + (if Escalates(difficultyTimer) then 1 else 0)
      ensures score == old(score) && isGameOver == old(isGameOver)
      ensures AlienViews(aliens) == Descend(old(AlienViews(aliens)))
      ensures BulletViews(bullets) == Climb(old(BulletViews(bullets)) + Launched(shot, player.y))
    {
      shot := Act(left, right, space, now);
      assert forall b :: b in bullets ==> b in old(bullets) || b in shot;
      Fly();
      Escalate();
    }

    /**
     * One tick of the game. Nothing happens once the game is over. Otherwise,
     * in order: the player moves, a shot is taken if space is held, every
     * bullet and alien moves, the difficulty controller ticks, bullets that
     * left the top edge go, every lethal alien (at the bottom edge or touching
     * the player) ends the game and goes, and each remaining alien overlapped
     * by a bullet still in play is destroyed with those bullets for 10 points.
     * The ghost result is the bullet fired this tick, if any.
     */
    method Update(left: bool, right: bool, space: bool, now: int) returns (ghost shot: seq<Bullet>)
      requires Valid()
      modifies this, player, bullets, aliens
      ensures Valid()
      ensures old(isGameOver) ==>
        && shot == []
        && unchanged(this) && unchanged(player) && unchanged(bullets) && unchanged(aliens)
      ensures !old(isGameOver) ==>
        // motion
        && player == old(player)
        && player.x == Clamp(old(player.x) + Delta(left, right), canvasWidth - player.width)
        && player.y == old(player.y)
        // shooting
        && |shot| <= 1
        && (shot != [] <==> space && now - old(lastShoot) > Cooldown)
        && (forall b :: b in shot ==> fresh(b) && b.x == player.x + 17.5)
        && lastShoot == (if shot != [] then now else old(lastShoot))
        // difficulty
        && Level() == NextDifficulty(old(Level()))
        && spawners == old(spawners) + (if Escalates(difficultyTimer) then 1 else 0)
      ensures !old(isGameOver) ==>
        // pruning, lethal pass, scoring pass, on the positions after this tick's motion
        var box := player.Bounds();
        var before := Descend(old(AlienViews(aliens)));
        var flying := Climb(old(BulletViews(bullets)) + Launched(shot, player.y));
        && (isGameOver <==> exists i :: 0 <= i < |before| && Lethal(before[i].box, box, canvasHeight))
        && var outcome := Collide(before, flying, box, canvasHeight);
           && aliens == Objects(outcome.aliens)
           && bullets == Objects(outcome.bullets)
           && AlienViews(aliens) == outcome.aliens
           && BulletViews(bullets) == outcome.bullets
           && score == old(score) + 10 * outcome.kills
      ensures !old(isGameOver) ==> Settled(aliens, bullets, player.Bounds(), canvasHeight)
    {
      if isGameOver {
        shot := [];
        return;
      }
      shot := Advance(left, right, space, now);
      ResolveCollisions();
    }
  }
}
