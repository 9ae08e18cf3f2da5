/** Enemies: horizontal bouncing, the FIRING/RESTING fire cycle and the roster reset. */
module Enemies {
  import opened Config

  /** One enemy of the roster. `x`, `y` is the centre of its 144x144 sprite. */
  datatype Enemy = Enemy(
    x: real, y: real, speedX: real,
    hp: int, maxHp: int,
    firing: bool, bulletCount: int, waitTimer: int)

  const ROSTER_SIZE: int := 3

  /** The three enemies as the game starts: a frog, a bat and a flower. */
  const INITIAL_ROSTER: seq<Enemy> := [
    Enemy((WIDTH / 2) as real, 150.0, 2.0, 30, 30, true, 0, 0),
    Enemy((WIDTH / 2) as real, 130.0, 3.0, 22, 22, true, 0, 0),
    Enemy((WIDTH / 2) as real, 170.0, 1.5, 25, 25, true, 0, 0)
  ]

  function Abs(v: real): (r: real) {
    if v < 0.0 then -v else v
  }

  /** True when an enemy centred at `x` sticks out past the left or right screen edge. */
  predicate OffEdge(x: real) {
    x - ENEMY_HALF as real < 0.0 || x + ENEMY_HALF as real > WIDTH as real
  }

  /** Moves the enemy by its speed; if that put the sprite past an edge the speed
      changes sign, and the position is clamped back inside [72, WIDTH-72]. */
  function UpdateEnemy(e: Enemy): (r: Enemy)
    ensures ENEMY_HALF as real <= r.x <= (WIDTH - ENEMY_HALF) as real
    ensures Abs(r.speedX) == Abs(e.speedX)
    ensures OffEdge(e.x + e.speedX) ==> r.speedX == -e.speedX
    ensures !OffEdge(e.x + e.speedX) ==> r.speedX == e.speedX && r.x == e.x + e.speedX
    // a move past an edge is clamped back to that edge
    ensures e.x + e.speedX < ENEMY_HALF as real ==> r.x == ENEMY_HALF as real
    ensures e.x + e.speedX > (WIDTH - ENEMY_HALF) as real ==> r.x == (WIDTH - ENEMY_HALF) as real
    ensures e.speedX != 0.0 ==> (r.speedX != e.speedX <==> OffEdge(e.x + e.speedX))
    ensures r == e.(x := r.x, speedX := r.speedX)
  {
    var x1 := e.x + e.speedX;
    var s := if OffEdge(x1) then -e.speedX else e.speedX;
    var lo := ENEMY_HALF as real;
    var hi := (WIDTH - ENEMY_HALF) as real;
    var m := if x1 <= hi then x1 else hi;
    e.(x := if lo >= m then lo else m, speedX := s)
  }

  /** The fire-cycle states that can occur: FIRING with fewer than SHOT_CAP shots
      and no pending rest, or RESTING after a full volley with the rest countdown running. */
  ghost predicate FireCycleValid(e: Enemy) {
    || (e.firing && 0 <= e.bulletCount < SHOT_CAP && e.waitTimer == 0)
    || (!e.firing && e.bulletCount == SHOT_CAP && 1 <= e.waitTimer <= REST_TICKS)
  }

  /** The outcome of one fire-cycle tick: the enemy, the shared cadence counter and
      whether a bullet was fired. */
  datatype FireResult = FireResult(enemy: Enemy, timer: int, fired: bool)

  /** One tick of the fire cycle of a living current enemy, given the shared cadence
      counter `timer`. */
  function FireStep(e: Enemy, timer: int): (r: FireResult)
    // only the fire-cycle fields change
    ensures r.enemy == e.(firing := r.enemy.firing, bulletCount := r.enemy.bulletCount,
                          waitTimer := r.enemy.waitTimer)
    // a bullet is fired exactly when the counter reaches the cadence below the cap
    ensures r.fired <==> e.firing && timer + 1 >= CADENCE && e.bulletCount < SHOT_CAP
    ensures r.fired ==> r.timer == 0 && r.enemy.bulletCount == e.bulletCount + 1
    ensures e.firing && !r.fired ==> r.timer == timer + 1 && r.enemy.bulletCount == e.bulletCount
    // FIRING turns into RESTING, with the full rest ahead, exactly when the cap is reached
    ensures e.firing ==> (r.enemy.firing <==> r.enemy.bulletCount < SHOT_CAP)
    ensures e.firing && !r.enemy.firing ==> r.enemy.waitTimer == REST_TICKS
    ensures e.firing && r.enemy.firing ==> r.enemy.waitTimer == e.waitTimer
    // RESTING counts down and leaves the shared counter alone
    ensures !e.firing ==> !r.fired && r.timer == timer && r.enemy.waitTimer == e.waitTimer - 1
    ensures !e.firing ==> (r.enemy.firing <==> e.waitTimer - 1 <= 0)
    ensures !e.firing ==> r.enemy.bulletCount == (if r.enemy.firing then 0 else e.bulletCount)
    // the cycle's invariant is kept
    ensures e.bulletCount <= SHOT_CAP ==> r.enemy.bulletCount <= SHOT_CAP
    ensures FireCycleValid(e) && 0 <= timer < CADENCE ==> FireCycleValid(r.enemy) && 0 <= r.timer < CADENCE
  {
    if e.firing then
      var t := timer + 1;
      if t >= CADENCE && e.bulletCount < SHOT_CAP then
        var e1 := e.(bulletCount := e.bulletCount + 1);
        var e2 := if e1.bulletCount >= SHOT_CAP then e1.(firing := false, waitTimer := REST_TICKS) else e1;
        FireResult(e2, 0, true)
      else
        var e2 := if e.bulletCount >= SHOT_CAP then e.(firing := false, waitTimer := REST_TICKS) else e;
        FireResult(e2, t, false)
    else
      var e1 := e.(waitTimer := e.waitTimer - 1);
      if e1.waitTimer <= 0 then FireResult(e1.(firing := true, bulletCount := 0), timer, false)
      else FireResult(e1, timer, false)
  }

  /** `n` consecutive fire-cycle ticks; `fired` tells whether the last of them fired. */
  function Run(e: Enemy, timer: int, n: nat): (r: FireResult) {
    if n == 0 then FireResult(e, timer, false)
    else
      var p := Run(e, timer, n - 1);
      FireStep(p.enemy, p.timer)
  }

  lemma {:induction false} RunSplit(e: Enemy, timer: int, a: nat, b: nat)
    requires 1 <= b
    ensures var p := Run(e, timer, a); Run(e, timer, a + b) == Run(p.enemy, p.timer, b)
    decreases b
  {
    if b > 1 {
      RunSplit(e, timer, a, b - 1);
    }
  }

  /** A firing enemy below the cap does nothing but advance the shared counter until it reaches the cadence. */
  lemma {:induction false} CadenceWait(e: Enemy, timer: int, k: nat)
    requires e.firing && 0 <= e.bulletCount < SHOT_CAP
    requires 0 <= timer && timer + k < CADENCE
    ensures Run(e, timer, k) == FireResult(e, timer + k, false)
    decreases k
  {
    if k > 0 {
      CadenceWait(e, timer, k - 1);
    }
  }

  /** `e` after its volley has reached `shots` shots. */
  function AfterShots(e: Enemy, shots: int): (r: Enemy) {
    if shots >= SHOT_CAP then e.(bulletCount := shots, firing := false, waitTimer := REST_TICKS)
    else e.(bulletCount := shots)
  }

  /** With the shared counter at `timer`, a firing enemy's next shot comes CADENCE - timer
      ticks later; in particular an enemy that becomes current inherits the previous
      enemy's counter and may fire sooner than CADENCE ticks after taking over. */
  lemma NextShot(e: Enemy, timer: int)
    requires e.firing && 0 <= e.bulletCount < SHOT_CAP
    requires 0 <= timer < CADENCE
    ensures Run(e, timer, CADENCE - timer) == FireResult(AfterShots(e, e.bulletCount + 1), 0, true)
  {
    var k := CADENCE - timer - 1;
    CadenceWait(e, timer, k);
    if k > 0 {
      RunSplit(e, timer, k, 1);
    }
  }

  /** From a counter at zero, `m` more shots take exactly CADENCE * m ticks. */
  lemma {:induction false} Volley(e: Enemy, m: nat)
    requires e.firing && 0 <= e.bulletCount && 1 <= m && e.bulletCount + m <= SHOT_CAP
    ensures Run(e, 0, CADENCE * m) == FireResult(AfterShots(e, e.bulletCount + m), 0, true)
    decreases m
  {
    if m == 1 {
      NextShot(e, 0);
    } else {
      Volley(e, m - 1);
      var p := AfterShots(e, e.bulletCount + m - 1);
      RunSplit(e, 0, CADENCE * (m - 1), CADENCE);
      NextShot(p, 0);
      assert AfterShots(p, p.bulletCount + 1) == AfterShots(e, e.bulletCount + m);
    }
  }

  /** A resting enemy spends exactly its remaining wait ticks counting down, then is
      armed again with an empty shot counter; the shared counter is left untouched. */
  lemma {:induction false} RestCountdown(e: Enemy, timer: int, k: nat)
    requires !e.firing && 1 <= k <= e.waitTimer
    ensures Run(e, timer, k) == FireResult(
              if k == e.waitTimer then e.(waitTimer := 0, firing := true, bulletCount := 0)
              else e.(waitTimer := e.waitTimer - k),
              timer, false)
    decreases k
  {
    if k > 1 {
      RestCountdown(e, timer, k - 1);
    }
  }

  /** Ticks an armed enemy needs, from a shared counter at `timer`, to fire its volley and rest. */
  function CycleLength(timer: int): (r: int) {
    (CADENCE - timer) + CADENCE * (SHOT_CAP - 1) + REST_TICKS
  }

  /** An armed enemy (FIRING, no shots, no rest pending) fires a volley of SHOT_CAP
      bullets, rests REST_TICKS ticks and is armed again, with the shared counter at zero,
      after exactly CycleLength(timer) ticks. */
  lemma FullCycle(e: Enemy, timer: int)
    requires e.firing && e.bulletCount == 0 && e.waitTimer == 0
    requires 0 <= timer < CADENCE
    ensures Run(e, timer, CycleLength(timer)) == FireResult(e, 0, false)
  {
    var first := CADENCE - timer;
    NextShot(e, timer);
    var e1 := AfterShots(e, 1);
    Volley(e1, SHOT_CAP - 1);
    var e8 := AfterShots(e1, SHOT_CAP);
    assert e8 == AfterShots(e, SHOT_CAP);
    RunSplit(e, timer, first, CADENCE * (SHOT_CAP - 1));
    RestCountdown(e8, 0, REST_TICKS);
    RunSplit(e, timer, first + CADENCE * (SHOT_CAP - 1), REST_TICKS);
  }

  /** Invariant of every roster entry. */
  ghost predicate EnemyValid(e: Enemy) {
    && 0 < e.maxHp && e.hp <= e.maxHp
    && ENEMY_HALF as real <= e.x <= (WIDTH - ENEMY_HALF) as real
    && 0.0 <= e.y <= (HEIGHT - SPRITE_SIZE) as real
    && FireCycleValid(e)
  }

  /** The roster entry at index `i` after a reset: full health, armed, centred
      horizontally and at its own height; its speed (and so its direction) is kept. */
  function ResetEnemy(e: Enemy, i: int): (r: Enemy)
    ensures r.hp == r.maxHp == e.maxHp && r.speedX == e.speedX
    ensures r.firing && r.bulletCount == 0 && r.waitTimer == 0
    ensures r.x == (WIDTH / 2) as real
    ensures r.y == (if 0 <= i < ROSTER_SIZE then INITIAL_ROSTER[i].y else e.y)
    ensures 0 < e.maxHp && (0 <= i < ROSTER_SIZE || 0.0 <= e.y <= (HEIGHT - SPRITE_SIZE) as real)
            ==> EnemyValid(r)
  {
    var e1 := e.(hp := e.maxHp, firing := true, bulletCount := 0, waitTimer := 0, x := (WIDTH / 2) as real);
    if i == 0 then e1.(y := 150.0)
    else if i == 1 then e1.(y := 130.0)
    else if i == 2 then e1.(y := 170.0)
    else e1
  }
}
