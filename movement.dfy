/** Free-roam movement, the heart's edge-triggered velocity and its confinement to the battle box. */
module Movement {
  import opened Config
  import opened Input

  /** `max(lo, min(v, hi))` on integers. */
  function Clamp(v: int, lo: int, hi: int): (r: int)
    requires lo <= hi
    ensures lo <= r <= hi
    ensures lo <= v <= hi ==> r == v
    ensures v < lo ==> r == lo
    ensures hi < v ==> r == hi
  {
    var m := if v <= hi then v else hi;
    if lo >= m then lo else m
  }

  /** Net displacement along one axis when `neg` and `pos` are the two opposite keys. */
  function Shift(neg: bool, pos: bool, speed: int): (r: int) {
    (if pos then speed else 0) - (if neg then speed else 0)
  }

  ghost predicate PlayerInWindow(x: int, y: int) {
    0 <= x <= WIDTH - SPRITE_SIZE && 0 <= y <= HEIGHT - SPRITE_SIZE
  }

  /** Free-roam movement: each held arrow key moves the 144x144 sprite by `speed`,
      then the sprite is clamped to the window. */
  function HandlePlayerMovement(keys: Held, x: int, y: int, speed: int): (r: (int, int))
    ensures PlayerInWindow(r.0, r.1)
    ensures var tx := x + Shift(keys.left, keys.right, speed);
            && (0 <= tx <= WIDTH - SPRITE_SIZE ==> r.0 == tx)
            && (tx < 0 ==> r.0 == 0)
            && (WIDTH - SPRITE_SIZE < tx ==> r.0 == WIDTH - SPRITE_SIZE)
    ensures var ty := y + Shift(keys.up, keys.down, speed);
            && (0 <= ty <= HEIGHT - SPRITE_SIZE ==> r.1 == ty)
            && (ty < 0 ==> r.1 == 0)
            && (HEIGHT - SPRITE_SIZE < ty ==> r.1 == HEIGHT - SPRITE_SIZE)
  {
    var x1 := if keys.left then x - speed else x;
    var x2 := if keys.right then x1 + speed else x1;
    var y1 := if keys.up then y - speed else y;
    var y2 := if keys.down then y1 + speed else y1;
    (Clamp(x2, 0, WIDTH - SPRITE_SIZE), Clamp(y2, 0, HEIGHT - SPRITE_SIZE))
  }

  /** Holding LEFT and RIGHT together is the same as holding neither; likewise UP and DOWN. */
  lemma OppositeKeysCancel(keys: Held, x: int, y: int, speed: int)
    ensures HandlePlayerMovement(keys.(left := true, right := true), x, y, speed)
         == HandlePlayerMovement(keys.(left := false, right := false), x, y, speed)
    ensures HandlePlayerMovement(keys.(up := true, down := true), x, y, speed)
         == HandlePlayerMovement(keys.(up := false, down := false), x, y, speed)
  {
  }

  /** With no key held, a sprite inside the window stays where it is. */
  lemma PlayerRestsWithoutKeys(x: int, y: int, speed: int)
    requires PlayerInWindow(x, y)
    ensures HandlePlayerMovement(Held(false, false, false, false), x, y, speed) == (x, y)
  {
  }

  ghost predicate HeartInBox(x: int, y: int) {
    && BOX_X + HEART_HALF <= x <= BOX_X + BOX_WIDTH - HEART_HALF
    && BOX_Y + HEART_HALF <= y <= BOX_Y + BOX_HEIGHT - HEART_HALF
  }

  /** Keeps the heart's 48x48 sprite inside the battle box: each coordinate is moved
      to the nearest point of its allowed interval. */
  function ConstrainHeart(x: int, y: int): (r: (int, int))
    ensures HeartInBox(r.0, r.1)
    ensures HeartInBox(x, y) ==> r == (x, y)
    ensures BOX_X + HEART_HALF <= x <= BOX_X + BOX_WIDTH - HEART_HALF ==> r.0 == x
    ensures x < BOX_X + HEART_HALF ==> r.0 == BOX_X + HEART_HALF
    ensures BOX_X + BOX_WIDTH - HEART_HALF < x ==> r.0 == BOX_X + BOX_WIDTH - HEART_HALF
    ensures BOX_Y + HEART_HALF <= y <= BOX_Y + BOX_HEIGHT - HEART_HALF ==> r.1 == y
    ensures y < BOX_Y + HEART_HALF ==> r.1 == BOX_Y + HEART_HALF
    ensures BOX_Y + BOX_HEIGHT - HEART_HALF < y ==> r.1 == BOX_Y + BOX_HEIGHT - HEART_HALF
  {
    (Clamp(x, BOX_X + HEART_HALF, BOX_X + BOX_WIDTH - HEART_HALF),
     Clamp(y, BOX_Y + HEART_HALF, BOX_Y + BOX_HEIGHT - HEART_HALF))
  }

  lemma ConstrainHeartIdempotent(x: int, y: int)
    ensures var p := ConstrainHeart(x, y); ConstrainHeart(p.0, p.1) == p
  {
  }

  ghost predicate IsHeartSpeed(v: int) {
    v == -HEART_SPEED || v == 0 || v == HEART_SPEED
  }

  /** The heart's velocity after one event: a key press on a/d (w/s) sets the horizontal
      (vertical) component to -/+HEART_SPEED, a key release of either a or d (w or s)
      zeroes that component, whatever else is held; the other component never changes. */
  function SteerHeart(ev: Event, vx: int, vy: int): (r: (int, int))
    ensures ev == KeyDown(KeyA) ==> r == (-HEART_SPEED, vy)
    ensures ev == KeyDown(KeyD) ==> r == (HEART_SPEED, vy)
    ensures ev == KeyDown(KeyW) ==> r == (vx, -HEART_SPEED)
    ensures ev == KeyDown(KeyS) ==> r == (vx, HEART_SPEED)
    ensures ev == KeyUp(KeyA) || ev == KeyUp(KeyD) ==> r == (0, vy)
    ensures ev == KeyUp(KeyW) || ev == KeyUp(KeyS) ==> r == (vx, 0)
    ensures ev.OtherEvent? || ev.key !in {KeyA, KeyD, KeyW, KeyS} ==> r == (vx, vy)
    ensures IsHeartSpeed(vx) && IsHeartSpeed(vy) ==> IsHeartSpeed(r.0) && IsHeartSpeed(r.1)
  {
    match ev
    case KeyDown(k) =>
      if k == KeyA then (-HEART_SPEED, vy)
      else if k == KeyD then (HEART_SPEED, vy)
      else if k == KeyW then (vx, -HEART_SPEED)
      else if k == KeyS then (vx, HEART_SPEED)
      else (vx, vy)
    case KeyUp(k) =>
      var sx := if k == KeyA || k == KeyD then 0 else vx;
      var sy := if k == KeyW || k == KeyS then 0 else vy;
      (sx, sy)
    case OtherEvent => (vx, vy)
  }

  /** Releasing a stops horizontal motion even while d, pressed later, is still held. */
  lemma ReleaseStopsAxisWhileOppositeHeld(vx: int, vy: int)
    ensures var v1 := SteerHeart(KeyDown(KeyA), vx, vy);
            var v2 := SteerHeart(KeyDown(KeyD), v1.0, v1.1);
            SteerHeart(KeyUp(KeyA), v2.0, v2.1) == (0, vy)
  {
  }

  /** Pressing a then w from rest moves the heart up and left at full speed on both axes. */
  lemma DiagonalFromRest()
    ensures var v1 := SteerHeart(KeyDown(KeyA), 0, 0);
            SteerHeart(KeyDown(KeyW), v1.0, v1.1) == (-HEART_SPEED, -HEART_SPEED)
  {
  }
}
