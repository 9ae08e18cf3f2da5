/** The bullet engine: spawning, advancing and pruning enemy and player bullets. */
module Bullets {
  import opened Config
  import opened Movement

  /** A bullet: the centre of its 20x20 box and its velocity per tick. */
  datatype Bullet = Bullet(x: real, y: real, speedX: real, speedY: real)

  /** Which collection a bullet lives in; the two are pruned by different bounds. */
  datatype Owner = EnemyShot | PlayerShot

  /** Enemy bullets must stay on the screen on all four sides; player bullets are
      only dropped once they pass the top edge. */
  predicate OnScreen(o: Owner, b: Bullet) {
    match o
    case EnemyShot => 0.0 <= b.x <= WIDTH as real && 0.0 <= b.y <= HEIGHT as real
    case PlayerShot => 0.0 <= b.y
  }

  /** A bullet fired by an enemy whose position is (enemyX, enemyY), with the velocity
      drawn for it: it starts at the right edge of the enemy's hitbox, a sprite height below. */
  function SpawnEnemyBullet(enemyX: real, enemyY: real, speedX: real, speedY: real): (b: Bullet)
    ensures b.speedX == speedX && b.speedY == speedY
    ensures b.x == enemyX + ENEMY_HALF as real && b.y == enemyY + SPRITE_SIZE as real
    ensures b.y - BULLET_HALF as real > enemyY + ENEMY_HALF as real
    ensures ENEMY_HALF as real <= enemyX <= (WIDTH - ENEMY_HALF) as real
            && 0.0 <= enemyY <= (HEIGHT - SPRITE_SIZE) as real
            ==> OnScreen(EnemyShot, b)
  {
    Bullet(enemyX + ENEMY_HALF as real, enemyY + SPRITE_SIZE as real, speedX, speedY)
  }

  /** A bullet fired by the heart: it starts on the top edge of the heart's box and travels straight up. */
  function SpawnPlayerBullet(heartX: int, heartY: int): (b: Bullet)
    ensures b.speedX == 0.0 && b.speedY == -(PLAYER_BULLET_SPEED as real) < 0.0
    ensures b.x == heartX as real && b.y == (heartY - HEART_HALF) as real
    ensures HeartInBox(heartX, heartY) ==> OnScreen(PlayerShot, b)
  {
    Bullet(heartX as real, (heartY - HEART_HALF) as real, 0.0, -(PLAYER_BULLET_SPEED as real))
  }

  /** One tick of motion. */
  function Moved(b: Bullet): (r: Bullet) {
    b.(x := b.x + b.speedX, y := b.y + b.speedY)
  }

  function MoveAll(bs: seq<Bullet>): (r: seq<Bullet>) {
    seq(|bs|, i requires 0 <= i < |bs| => Moved(bs[i]))
  }

  /** The bullets of `bs` that lie within the owner's bounds, in their original order. */
  function Prune(o: Owner, bs: seq<Bullet>): (r: seq<Bullet>)
    ensures |r| <= |bs|
    ensures forall b :: b in r ==> b in bs && OnScreen(o, b)
    ensures forall b :: b in bs && OnScreen(o, b) ==> b in r
    ensures forall b :: multiset(r)[b] == if OnScreen(o, b) then multiset(bs)[b] else 0
    decreases |bs|
  {
    if bs == [] then []
    else
      var last := bs[|bs| - 1];
      assert bs == bs[..|bs| - 1] + [last];
      Prune(o, bs[..|bs| - 1]) + (if OnScreen(o, last) then [last] else [])
  }

  /** `idx` lists, in increasing order, the positions of `b` that the elements of `a` come from. */
  ghost predicate Embeds(a: seq<Bullet>, b: seq<Bullet>, idx: seq<int>) {
    && |idx| == |a|
    && (forall k :: 0 <= k < |idx| ==> 0 <= idx[k] < |b| && a[k] == b[idx[k]])
    && (forall k, l :: 0 <= k < l < |idx| ==> idx[k] < idx[l])
  }

  /** `a` is `b` with some elements left out and the rest kept in order. */
  ghost predicate IsSubsequence(a: seq<Bullet>, b: seq<Bullet>) {
    exists idx :: Embeds(a, b, idx)
  }

  /** An embedding survives appending one element to the longer sequence, and to both. */
  lemma EmbedsSnoc(a: seq<Bullet>, b: seq<Bullet>, idx: seq<int>, x: Bullet)
    requires Embeds(a, b, idx)
    ensures Embeds(a, b + [x], idx)
    ensures Embeds(a + [x], b + [x], idx + [|b|])
  {
  }

  /** Pruning keeps the survivors in their relative order. */
  lemma {:induction false} PruneIsSubsequence(o: Owner, bs: seq<Bullet>)
    ensures IsSubsequence(Prune(o, bs), bs)
    decreases |bs|
  {
    if bs == [] {
      assert Embeds([], bs, []);
    } else {
      var init := bs[..|bs| - 1];
      var last := bs[|bs| - 1];
      assert bs == init + [last];
      PruneIsSubsequence(o, init);
      var p := Prune(o, init);
      var idx :| Embeds(p, init, idx);
      EmbedsSnoc(p, init, idx, last);
      if OnScreen(o, last) {
        assert Embeds(Prune(o, bs), bs, idx + [|init|]);
      } else {
        assert Embeds(Prune(o, bs), bs, idx);
      }
    }
  }

  /** Pruning a collection whose bullets are all within bounds changes nothing;
      in particular pruning is idempotent. */
  lemma {:induction false} PruneKeepsInBounds(o: Owner, bs: seq<Bullet>)
    requires forall b :: b in bs ==> OnScreen(o, b)
    ensures Prune(o, bs) == bs
    decreases |bs|
  {
    if bs != [] {
      var init, last := bs[..|bs| - 1], bs[|bs| - 1];
      assert bs == init + [last];
      forall b | b in init
        ensures OnScreen(o, b)
      {
        assert b in bs;
      }
      PruneKeepsInBounds(o, init);
      assert last in bs;
    }
  }

  lemma PruneIdempotent(o: Owner, bs: seq<Bullet>)
    ensures Prune(o, Prune(o, bs)) == Prune(o, bs)
  {
    PruneKeepsInBounds(o, Prune(o, bs));
  }

  /** One tick of the bullet engine for one collection: every bullet moves by its own
      velocity, then the ones that left the owner's bounds are dropped. */
  method AdvanceAndPrune(o: Owner, bs: seq<Bullet>) returns (r: seq<Bullet>)
    ensures r == Prune(o, MoveAll(bs))
  {
    r := [];
    var i := 0;
    while i < |bs|
      invariant 0 <= i <= |bs|
      invariant r == Prune(o, MoveAll(bs[..i]))
    {
      var b := Moved(bs[i]);
      assert MoveAll(bs[..i + 1])[..i] == MoveAll(bs[..i]);
      if OnScreen(o, b) {
        r := r + [b];
      }
      i := i + 1;
    }
    assert bs[..i] == bs;
  }

  /** What one tick leaves behind: only bullets inside the owner's bounds, each the
      input bullet at the same relative position moved by exactly its velocity, and
      every bullet whose new position is inside the bounds. */
  lemma AdvanceAndPruneMeaning(o: Owner, bs: seq<Bullet>)
    ensures var r := Prune(o, MoveAll(bs));
            && (forall b :: b in r ==> OnScreen(o, b))
            && IsSubsequence(r, MoveAll(bs))
            && (forall i :: 0 <= i < |bs| && OnScreen(o, Moved(bs[i])) ==> Moved(bs[i]) in r)
            && (forall b :: multiset(r)[b] == if OnScreen(o, b) then multiset(MoveAll(bs))[b] else 0)
  {
    PruneIsSubsequence(o, MoveAll(bs));
    forall i | 0 <= i < |bs| && OnScreen(o, Moved(bs[i]))
      ensures Moved(bs[i]) in Prune(o, MoveAll(bs))
    {
      assert MoveAll(bs)[i] == Moved(bs[i]);
    }
  }
}
