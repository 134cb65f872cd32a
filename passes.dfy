/**
 * The three filter passes one tick of the game runs over its bullet and alien
 * lists: pruning bullets that left the top edge, the lethal pass and the
 * scoring pass. Nothing moves while they run, so each pass is stated over a
 * snapshot of the list: every object paired with the rectangle it occupies.
 * Each pass is a function that defines it and a method that performs it the
 * way the game loop does.
 */
module Passes {
  import opened Geometry

  /** A game object together with the rectangle it occupies. */
  datatype Tagged<T> = Tagged(obj: T, box: Rect)

  /** The objects of a snapshot, in order. */
  function Objects<T>(vs: seq<Tagged<T>>): seq<T>
  {
    seq(|vs|, i requires 0 <= i < |vs| => vs[i].obj)
  }

  /** No element appears twice in the list. */
  predicate Distinct<T(==)>(s: seq<T>)
  {
    forall i, j :: 0 <= i < j < |s| ==> s[i] != s[j]
  }

  /** No object appears twice in the snapshot. */
  predicate DistinctObjects<T(==)>(vs: seq<Tagged<T>>)
  {
    forall i, j :: 0 <= i < j < |vs| ==> vs[i].obj != vs[j].obj
  }

  // ---------------------------------------------------------------------
  // Pruning: bullets whose bottom edge is at or above the top of the canvas go.

  predicate OnScreen(box: Rect)
  {
    box.y + box.height > 0.0
  }

  function Visible<T>(bullets: seq<Tagged<T>>): seq<Tagged<T>>
  {
    if bullets == [] then []
    else (if OnScreen(bullets[0].box) then [bullets[0]] else []) + Visible(bullets[1..])
  }

  /** Pruning keeps exactly the bullets still (partly) on screen, and no object twice. */
  lemma {:induction false} VisibleSpec<T>(bullets: seq<Tagged<T>>)
    ensures forall v :: v in Visible(bullets) ==> v in bullets && OnScreen(v.box)
    ensures forall v :: v in bullets && OnScreen(v.box) ==> v in Visible(bullets)
    ensures DistinctObjects(bullets) ==> DistinctObjects(Visible(bullets))
  {
    if bullets != [] {
      VisibleSpec(bullets[1..]);
      assert forall v :: v in bullets ==> v == bullets[0] || v in bullets[1..];
      if DistinctObjects(bullets) {
        assert forall v :: v in bullets[1..] ==> v.obj != bullets[0].obj;
      }
    }
  }

  /** The prune, as a loop: keeps, in order, the bullets still below the top edge. */
  method PruneBullets<T>(bullets: seq<Tagged<T>>) returns (r: seq<Tagged<T>>)
    ensures r == Visible(bullets)
  {
    r := [];
    var i := 0;
    while i < |bullets|
      invariant 0 <= i <= |bullets|
      invariant r + Visible(bullets[i..]) == Visible(bullets)
    {
      assert bullets[i..][1..] == bullets[i + 1..];
      var b := bullets[i].box;
      if b.y + b.height > 0.0 {
        r := r + [bullets[i]];
      }
      i := i + 1;
    }
  }

  // ---------------------------------------------------------------------
  // Lethal pass: an alien that reaches the bottom edge or touches the player
  // ends the game and is dropped; every alien is inspected.

  predicate Lethal(box: Rect, player: Rect, canvasHeight: real)
  {
    box.y + box.height >= canvasHeight || CollidesWith(box, player)
  }

  function Survivors<T>(aliens: seq<Tagged<T>>, player: Rect, canvasHeight: real): seq<Tagged<T>>
  {
    if aliens == [] then []
    else (if Lethal(aliens[0].box, player, canvasHeight) then [] else [aliens[0]])
         + Survivors(aliens[1..], player, canvasHeight)
  }

  /** The lethal pass keeps exactly the aliens that are not lethal, and no object twice. */
  lemma {:induction false} SurvivorsSpec<T>(aliens: seq<Tagged<T>>, player: Rect, canvasHeight: real)
    ensures |Survivors(aliens, player, canvasHeight)| <= |aliens|
    ensures forall v :: v in Survivors(aliens, player, canvasHeight) ==> v in aliens && !Lethal(v.box, player, canvasHeight)
    ensures forall v :: v in aliens && !Lethal(v.box, player, canvasHeight) ==> v in Survivors(aliens, player, canvasHeight)
    ensures DistinctObjects(aliens) ==> DistinctObjects(Survivors(aliens, player, canvasHeight))
  {
    if aliens != [] {
      SurvivorsSpec(aliens[1..], player, canvasHeight);
      assert forall v :: v in aliens ==> v == aliens[0] || v in aliens[1..];
      if DistinctObjects(aliens) {
        assert forall v :: v in aliens[1..] ==> v.obj != aliens[0].obj;
      }
    }
  }

  /** Filtering keeps order: the survivors of a concatenation are the concatenated survivors. */
  lemma {:induction false} SurvivorsAppend<T>(s: seq<Tagged<T>>, t: seq<Tagged<T>>, player: Rect, canvasHeight: real)
    ensures Survivors(s + t, player, canvasHeight) == Survivors(s, player, canvasHeight) + Survivors(t, player, canvasHeight)
  {
    if s != [] {
      assert (s + t)[1..] == s[1..] + t;
      SurvivorsAppend(s[1..], t, player, canvasHeight);
    } else {
      assert s + t == t;
    }
  }

  /** The pass removes something exactly when some alien was lethal. */
  lemma {:induction false} SurvivorsAllKept<T>(aliens: seq<Tagged<T>>, player: Rect, canvasHeight: real)
    ensures |Survivors(aliens, player, canvasHeight)| == |aliens|
            <==> forall i :: 0 <= i < |aliens| ==> !Lethal(aliens[i].box, player, canvasHeight)
  {
    if aliens != [] {
      SurvivorsAllKept(aliens[1..], player, canvasHeight);
      SurvivorsSpec(aliens[1..], player, canvasHeight);
      if !Lethal(aliens[0].box, player, canvasHeight) {
        forall i | 0 < i < |aliens|
          ensures aliens[i] == aliens[1..][i - 1]
        {
        }
      }
    }
  }

  /**
   * The filter in the lethal pass: it sets the game-over flag when any alien is
   * lethal, and keeps the others.
   */
  method LethalPass<T>(aliens: seq<Tagged<T>>, player: Rect, canvasHeight: real)
    returns (kept: seq<Tagged<T>>, gameOver: bool)
    ensures kept == Survivors(aliens, player, canvasHeight)
    ensures gameOver <==> exists i :: 0 <= i < |aliens| && Lethal(aliens[i].box, player, canvasHeight)
  {
    kept := [];
    gameOver := false;
    var i := 0;
    while i < |aliens|
      invariant 0 <= i <= |aliens|
      invariant kept + Survivors(aliens[i..], player, canvasHeight) == Survivors(aliens, player, canvasHeight)
      invariant gameOver <==> exists k :: 0 <= k < i && Lethal(aliens[k].box, player, canvasHeight)
    {
      var a := aliens[i].box;
      assert aliens[i..][1..] == aliens[i + 1..];
      ghost var step := if Lethal(a, player, canvasHeight) then [] else [aliens[i]];
      assert Survivors(aliens[i..], player, canvasHeight) == step + Survivors(aliens[i + 1..], player, canvasHeight);
      var hitBottom := a.y + a.height >= canvasHeight;
      var hitPlayer := CollidesWith(a, player);
      if hitBottom || hitPlayer {
        gameOver := true;
      } else {
        assert (kept + [aliens[i]]) + Survivors(aliens[i + 1..], player, canvasHeight)
          == kept + ([aliens[i]] + Survivors(aliens[i + 1..], player, canvasHeight));
        kept := kept + [aliens[i]];
      }
      i := i + 1;
    }
  }

  // ---------------------------------------------------------------------
  // Scoring pass: each alien, in order, is destroyed if some bullet still in
  // play overlaps it; the bullets overlapping it are then removed.

  /** Some bullet in the list overlaps the alien. */
  predicate Struck<B>(alien: Rect, bullets: seq<Tagged<B>>)
  {
    exists i :: 0 <= i < |bullets| && CollidesWith(bullets[i].box, alien)
  }

  /** The bullets, in order, that do not overlap the alien. */
  function Without<B>(bullets: seq<Tagged<B>>, alien: Rect): seq<Tagged<B>>
  {
    if bullets == [] then []
    else (if CollidesWith(bullets[0].box, alien) then [] else [bullets[0]]) + Without(bullets[1..], alien)
  }

  /** Removing the bullets that overlap an alien keeps every other bullet, and no object twice. */
  lemma {:induction false} WithoutSpec<B>(bullets: seq<Tagged<B>>, alien: Rect)
    ensures forall v :: v in Without(bullets, alien) ==> v in bullets && !CollidesWith(v.box, alien)
    ensures forall v :: v in bullets && !CollidesWith(v.box, alien) ==> v in Without(bullets, alien)
    ensures DistinctObjects(bullets) ==> DistinctObjects(Without(bullets, alien))
  {
    if bullets != [] {
      WithoutSpec(bullets[1..], alien);
      assert forall v :: v in bullets ==> v == bullets[0] || v in bullets[1..];
      if DistinctObjects(bullets) {
        assert forall v :: v in bullets[1..] ==> v.obj != bullets[0].obj;
      }
    }
  }

  /** What the scoring pass leaves: the aliens and bullets kept, and how many aliens were destroyed. */
  datatype Outcome<A, B> = Outcome(aliens: seq<Tagged<A>>, bullets: seq<Tagged<B>>, kills: nat)

  function Scoring<A, B>(aliens: seq<Tagged<A>>, bullets: seq<Tagged<B>>): Outcome<A, B>
  {
    if aliens == [] then Outcome([], bullets, 0)
    else
      var a := aliens[0];
      if Struck(a.box, bullets) then
        var rest := Scoring(aliens[1..], Without(bullets, a.box));
        Outcome(rest.aliens, rest.bullets, rest.kills + 1)
      else
        var rest := Scoring(aliens[1..], bullets);
        Outcome([a] + rest.aliens, rest.bullets, rest.kills)
  }

  /** The scoring pass destroys one alien per kill and keeps the others; it only ever removes bullets. */
  lemma {:induction false} ScoringShape<A, B>(aliens: seq<Tagged<A>>, bullets: seq<Tagged<B>>)
    ensures var r := Scoring(aliens, bullets);
      && r.kills + |r.aliens| == |aliens|
      && (forall a :: a in r.aliens ==> a in aliens)
      && (forall b :: b in r.bullets ==> b in bullets)
  {
    if aliens != [] {
      var a := aliens[0];
      assert forall x :: x in aliens[1..] ==> x in aliens;
      WithoutSpec(bullets, a.box);
      if Struck(a.box, bullets) {
        ScoringShape(aliens[1..], Without(bullets, a.box));
      } else {
        ScoringShape(aliens[1..], bullets);
      }
    }
  }

  /** Every alien the scoring pass destroys was overlapped by one of the bullets it started with. */
  lemma {:induction false} ScoringKillsStruck<A, B>(aliens: seq<Tagged<A>>, bullets: seq<Tagged<B>>)
    ensures var r := Scoring(aliens, bullets);
      forall a :: a in aliens && a !in r.aliens ==> Struck(a.box, bullets)
  {
    if aliens != [] {
      var a := aliens[0];
      assert forall x :: x in aliens ==> x == a || x in aliens[1..];
      if Struck(a.box, bullets) {
        var live := Without(bullets, a.box);
        WithoutSpec(bullets, a.box);
        ScoringKillsStruck(aliens[1..], live);
        forall x | x in aliens[1..] && Struck(x.box, live) ensures Struck(x.box, bullets) {
          var i :| 0 <= i < |live| && CollidesWith(live[i].box, x.box);
          var j :| 0 <= j < |bullets| && bullets[j] == live[i];
        }
      } else {
        ScoringKillsStruck(aliens[1..], bullets);
      }
    }
  }

  /** No bullet the scoring pass leaves overlaps any alien it looked at, destroyed or not. */
  lemma {:induction false} ScoringLeavesNoHit<A, B>(aliens: seq<Tagged<A>>, bullets: seq<Tagged<B>>)
    ensures var r := Scoring(aliens, bullets);
      forall a, b :: a in aliens && b in r.bullets ==> !CollidesWith(b.box, a.box)
  {
    if aliens != [] {
      var a := aliens[0];
      assert forall x :: x in aliens ==> x == a || x in aliens[1..];
      var live := Resolve(a.box, bullets);
      WithoutSpec(bullets, a.box);
      ScoringShape(aliens[1..], live);
      ScoringLeavesNoHit(aliens[1..], live);
      assert forall b :: b in live ==> !CollidesWith(b.box, a.box);
    }
  }

  /** The scoring pass never duplicates an object. */
  lemma {:induction false} ScoringKeepsDistinct<A, B>(aliens: seq<Tagged<A>>, bullets: seq<Tagged<B>>)
    ensures var r := Scoring(aliens, bullets);
      && (DistinctObjects(aliens) ==> DistinctObjects(r.aliens))
      && (DistinctObjects(bullets) ==> DistinctObjects(r.bullets))
  {
    if aliens != [] {
      var a := aliens[0];
      var live := Resolve(a.box, bullets);
      WithoutSpec(bullets, a.box);
      ScoringShape(aliens[1..], live);
      ScoringKeepsDistinct(aliens[1..], live);
      if DistinctObjects(aliens) {
        assert forall x :: x in aliens[1..] ==> x.obj != a.obj;
      }
    }
  }

  /**
   * The scoring pass destroys one alien per kill and keeps the rest; every
   * destroyed alien was overlapped by a bullet; no bullet that is left
   * overlaps any alien the pass looked at, destroyed or not; no object is
   * duplicated.
   */
  lemma ScoringSpec<A, B>(aliens: seq<Tagged<A>>, bullets: seq<Tagged<B>>)
    ensures var r := Scoring(aliens, bullets);
      && r.kills + |r.aliens| == |aliens|
      && (forall a :: a in r.aliens ==> a in aliens)
      && (forall b :: b in r.bullets ==> b in bullets)
      && (forall a :: a in aliens && a !in r.aliens ==> Struck(a.box, bullets))
      && (forall a, b :: a in aliens && b in r.bullets ==> !CollidesWith(b.box, a.box))
      && (DistinctObjects(aliens) ==> DistinctObjects(r.aliens))
      && (DistinctObjects(bullets) ==> DistinctObjects(r.bullets))
  {
    ScoringShape(aliens, bullets);
    ScoringKillsStruck(aliens, bullets);
    ScoringLeavesNoHit(aliens, bullets);
    ScoringKeepsDistinct(aliens, bullets);
  }

  /** What the pass does to the live bullets when it reaches an alien. */
  function Resolve<B>(alien: Rect, live: seq<Tagged<B>>): seq<Tagged<B>>
  {
    if Struck(alien, live) then Without(live, alien) else live
  }

  /** The bullets still in play when the scoring pass reaches the i-th alien. */
  function LiveBefore<A, B>(aliens: seq<Tagged<A>>, bullets: seq<Tagged<B>>, i: nat): seq<Tagged<B>>
    requires i <= |aliens|
  {
    if i == 0 then bullets else Resolve(aliens[i - 1].box, LiveBefore(aliens, bullets, i - 1))
  }

  lemma {:induction false} LiveBeforeShift<A, B>(aliens: seq<Tagged<A>>, bullets: seq<Tagged<B>>, i: nat)
    requires i < |aliens|
    ensures LiveBefore(aliens, bullets, i + 1) == LiveBefore(aliens[1..], Resolve(aliens[0].box, bullets), i)
  {
    if i > 0 {
      LiveBeforeShift(aliens, bullets, i - 1);
      assert aliens[1..][i - 1] == aliens[i];
    }
  }

  /** Distinct lists stay distinct without their head. */
  lemma DistinctTail<T>(s: seq<T>)
    requires s != [] && Distinct(s)
    ensures Distinct(s[1..]) && s[0] !in s[1..]
  {
    forall j, k | 0 <= j < k < |s| - 1 ensures s[1..][j] != s[1..][k] {
      assert s[1..][j] == s[j + 1] && s[1..][k] == s[k + 1];
    }
    forall k | 0 <= k < |s| - 1 ensures s[1..][k] != s[0] {
      assert s[1..][k] == s[k + 1];
    }
  }

  /** The bullets the scoring pass leaves are those that survived every alien in turn. */
  lemma {:induction false} ScoringBulletsLeft<A, B>(aliens: seq<Tagged<A>>, bullets: seq<Tagged<B>>)
    ensures Scoring(aliens, bullets).bullets == LiveBefore(aliens, bullets, |aliens|)
  {
    if aliens != [] {
      ScoringBulletsLeft(aliens[1..], Resolve(aliens[0].box, bullets));
      LiveBeforeShift(aliens, bullets, |aliens| - 1);
    }
  }

  /**
   * The scoring pass keeps the i-th alien exactly when no bullet that survived
   * the aliens before it overlaps it.
   */
  lemma {:induction false} ScoringKeepsAt<A, B>(aliens: seq<Tagged<A>>, bullets: seq<Tagged<B>>, i: nat)
    requires Distinct(aliens) && i < |aliens|
    ensures aliens[i] in Scoring(aliens, bullets).aliens <==> !Struck(aliens[i].box, LiveBefore(aliens, bullets, i))
  {
    var a := aliens[0];
    var live := Resolve(a.box, bullets);
    var tail := aliens[1..];
    var rest := Scoring(tail, live);
    assert Scoring(aliens, bullets).aliens == if Struck(a.box, bullets) then rest.aliens else [a] + rest.aliens;
    DistinctTail(aliens);
    if i == 0 {
      ScoringShape(tail, live);
    } else {
      ScoringKeepsAt(tail, live, i - 1);
      LiveBeforeShift(aliens, bullets, i - 1);
      assert tail[i - 1] == aliens[i];
    }
  }

  /**
   * Read alien by alien, the pass destroys exactly the aliens overlapped by a
   * bullet that survived the aliens before it, and leaves the bullets that
   * survived them all.
   */
  lemma ScoringExact<A, B>(aliens: seq<Tagged<A>>, bullets: seq<Tagged<B>>)
    requires Distinct(aliens)
    ensures forall i :: 0 <= i < |aliens| ==>
      (aliens[i] in Scoring(aliens, bullets).aliens <==> !Struck(aliens[i].box, LiveBefore(aliens, bullets, i)))
    ensures Scoring(aliens, bullets).bullets == LiveBefore(aliens, bullets, |aliens|)
  {
    forall i | 0 <= i < |aliens|
      ensures aliens[i] in Scoring(aliens, bullets).aliens <==> !Struck(aliens[i].box, LiveBefore(aliens, bullets, i))
    {
      ScoringKeepsAt(aliens, bullets, i);
    }
    ScoringBulletsLeft(aliens, bullets);
  }

  /** The outer filter of the scoring pass, which rewrites the bullet list and counts kills as it goes. */
  method ScoringPass<A, B>(aliens: seq<Tagged<A>>, bullets: seq<Tagged<B>>) returns (r: Outcome<A, B>)
    ensures r == Scoring(aliens, bullets)
  {
    var kept: seq<Tagged<A>> := [];
    var live := bullets;
    var kills := 0;
    var i := 0;
    while i < |aliens|
      invariant 0 <= i <= |aliens|
      invariant var rest := Scoring(aliens[i..], live);
        Scoring(aliens, bullets) == Outcome(kept + rest.aliens, rest.bullets, kills + rest.kills)
    {
      var a := aliens[i];
      assert aliens[i..][0] == a && aliens[i..][1..] == aliens[i + 1..];
      if Struck(a.box, live) {
        live := Without(live, a.box);
        kills := kills + 1;
      } else {
        ghost var rest := Scoring(aliens[i + 1..], live);
        assert kept + ([a] + rest.aliens) == (kept + [a]) + rest.aliens;
        kept := kept + [a];
      }
      i := i + 1;
    }
    r := Outcome(kept, live, kills);
  }

  // ---------------------------------------------------------------------
  // The three passes of one tick, in the order the game runs them.

  /**
   * After the three passes every object kept was there before, no bullet is
   * above the top edge, no alien is lethal, no bullet overlaps an alien, and
   * no object is duplicated.
   */
  lemma CollisionPassesSpec<A, B>(aliens: seq<Tagged<A>>, bullets: seq<Tagged<B>>, player: Rect, canvasHeight: real)
    ensures var r := Scoring(Survivors(aliens, player, canvasHeight), Visible(bullets));
      && (forall a :: a in r.aliens ==> a in aliens)
      && (forall b :: b in r.bullets ==> b in bullets)
      && (forall b :: b in r.bullets ==> OnScreen(b.box))
      && (forall a :: a in r.aliens ==> !Lethal(a.box, player, canvasHeight))
      && (forall a, b :: a in r.aliens && b in r.bullets ==> !CollidesWith(b.box, a.box))
      && (DistinctObjects(aliens) ==> DistinctObjects(r.aliens))
      && (DistinctObjects(bullets) ==> DistinctObjects(r.bullets))
  {
    var survivors := Survivors(aliens, player, canvasHeight);
    VisibleSpec(bullets);
    SurvivorsSpec(aliens, player, canvasHeight);
    ScoringSpec(survivors, Visible(bullets));
  }

  /** The three passes never duplicate an object, so the lists the game keeps stay duplicate-free. */
  lemma PassesKeepDistinct<A, B>(aliens: seq<Tagged<A>>, bullets: seq<Tagged<B>>, player: Rect, canvasHeight: real)
    requires DistinctObjects(aliens) && DistinctObjects(bullets)
    ensures var r := Scoring(Survivors(aliens, player, canvasHeight), Visible(bullets));
      Distinct(Objects(r.aliens)) && Distinct(Objects(r.bullets))
  {
    CollisionPassesSpec(aliens, bullets, player, canvasHeight);
  }

  /**
   * The collision half of a tick: prune the bullets, run the lethal pass, then
   * the scoring pass over the surviving aliens and the pruned bullets. The
   * scoring pass runs whether or not the lethal pass ended the game.
   */
  method CollisionPasses<A, B>(aliens: seq<Tagged<A>>, bullets: seq<Tagged<B>>, player: Rect, canvasHeight: real)
    returns (r: Outcome<A, B>, gameOver: bool)
    ensures r == Scoring(Survivors(aliens, player, canvasHeight), Visible(bullets))
    ensures gameOver <==> exists i :: 0 <= i < |aliens| && Lethal(aliens[i].box, player, canvasHeight)
  {
    var pruned := PruneBullets(bullets);
    var kept;
    kept, gameOver := LethalPass(aliens, player, canvasHeight);
    r := ScoringPass(kept, pruned);
  }
}
