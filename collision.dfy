/** Axis-aligned hit tests and the first-hit-wins search over a bullet collection. */
module Collision {
  import opened Config
  import opened Bullets
  import opened Enemies

  datatype Option<T> = None | Some(value: T)

  /** A square hitbox: centre and half-extent. */
  datatype Box = Box(cx: real, cy: real, half: real)

  function EnemyBox(e: Enemy): (r: Box) {
    Box(e.x, e.y, ENEMY_HALF as real)
  }

  function HeartBox(heartX: int, heartY: int): (r: Box) {
    Box(heartX as real, heartY as real, HEART_HALF as real)
  }

  /** The bullet's 20x20 box and `box` share interior points (edges that only touch do not count). */
  predicate Hits(box: Box, b: Bullet) {
    var h := BULLET_HALF as real;
    && box.cx - box.half < b.x + h && b.x - h < box.cx + box.half
    && box.cy - box.half < b.y + h && b.y - h < box.cy + box.half
  }

  /** The position of the first bullet, in collection order, that hits `box`. */
  function FirstHit(bs: seq<Bullet>, box: Box): (r: Option<nat>)
    ensures r.Some? ==> r.value < |bs| && Hits(box, bs[r.value])
    ensures r.Some? ==> forall j :: 0 <= j < r.value ==> !Hits(box, bs[j])
    ensures r.None? <==> forall j :: 0 <= j < |bs| ==> !Hits(box, bs[j])
  {
    if bs == [] then None
    else if Hits(box, bs[0]) then Some(0)
    else
      match FirstHit(bs[1..], box)
      case None => None
      case Some(i) => Some(i + 1)
  }

  /** `s` without its element at position `i`. */
  function RemoveAt(s: seq<Bullet>, i: nat): (r: seq<Bullet>)
    requires i < |s|
    ensures |r| == |s| - 1
    ensures forall b :: b in r ==> b in s
  {
    s[..i] + s[i + 1..]
  }

  /** Resolving a hit removes exactly one bullet, the first that hits; the bullets
      before it and after it stay, in order, and none of the remaining bullets before
      its old position hits the box. */
  lemma ResolveRemovesOnlyFirstHit(bs: seq<Bullet>, box: Box)
    requires FirstHit(bs, box).Some?
    ensures var i := FirstHit(bs, box).value;
            var r := RemoveAt(bs, i);
            && |r| == |bs| - 1
            && multiset(r) + multiset{bs[i]} == multiset(bs)
            && (forall j :: 0 <= j < i ==> r[j] == bs[j] && !Hits(box, r[j]))
            && (forall j :: i <= j < |r| ==> r[j] == bs[j + 1])
  {
    var i := FirstHit(bs, box).value;
    assert bs == bs[..i] + [bs[i]] + bs[i + 1..];
  }
}
