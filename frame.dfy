/** One frame of the main loop on the game's state: free-roam movement, or the heart's
    move, the current enemy's turn, the bullets' advance, the two collision checks and
    the dialogue countdown of a battle frame. */
module Frame {
  import opened Config
  import opened Input
  import opened Movement
  import opened Bullets
  import opened Enemies
  import opened Collision
  import opened GameState

  /** Free roam: the player sprite follows the held arrow keys. */
  function PlayerWalked(s: State, held: Held): (r: State)
    ensures PlayerInWindow(r.playerX, r.playerY)
    ensures r.(playerX := s.playerX, playerY := s.playerY) == s
  {
    var p := HandlePlayerMovement(held, s.playerX, s.playerY, PLAYER_SPEED);
    s.(playerX := p.0, playerY := p.1)
  }

  /** The heart moves by its velocity and is pulled back into the battle box. */
  function HeartMoved(s: State): (r: State)
    ensures HeartInBox(r.heartX, r.heartY)
    ensures HeartInBox(s.heartX + s.heartSpeedX, s.heartY + s.heartSpeedY) ==>
              r.heartX == s.heartX + s.heartSpeedX && r.heartY == s.heartY + s.heartSpeedY
    ensures r.(heartX := s.heartX, heartY := s.heartY) == s
  {
    var p := ConstrainHeart(s.heartX + s.heartSpeedX, s.heartY + s.heartSpeedY);
    s.(heartX := p.0, heartY := p.1)
  }

  /** The current enemy's horizontal bounce. */
  function EnemyMoved(s: State): (r: State)
    requires s.currentEnemyIndex < |s.enemies|
    ensures |r.enemies| == |s.enemies|
    ensures r.enemies[s.currentEnemyIndex] == UpdateEnemy(s.enemies[s.currentEnemyIndex])
    ensures forall j :: 0 <= j < |s.enemies| && j != s.currentEnemyIndex ==> r.enemies[j] == s.enemies[j]
    ensures r.(enemies := s.enemies) == s
  {
    var i := s.currentEnemyIndex;
    s.(enemies := s.enemies[i := UpdateEnemy(s.enemies[i])])
  }

  /** One tick of the current enemy's fire cycle; a fired bullet gets the velocity
      (speedX, speedY) drawn for it. */
  function FireTicked(s: State, speedX: real, speedY: real): (r: State)
    requires s.currentEnemyIndex < |s.enemies|
    ensures var i := s.currentEnemyIndex;
            var f := FireStep(s.enemies[i], s.bulletTimer);
            && |r.enemies| == |s.enemies| && r.enemies[i] == f.enemy && r.bulletTimer == f.timer
            && (forall j :: 0 <= j < |s.enemies| && j != i ==> r.enemies[j] == s.enemies[j])
            && |r.enemyBullets| == |s.enemyBullets| + (if f.fired then 1 else 0)
            && r.enemyBullets[..|s.enemyBullets|] == s.enemyBullets
            && (f.fired ==> r.enemyBullets[|s.enemyBullets|]
                              == SpawnEnemyBullet(s.enemies[i].x, s.enemies[i].y, speedX, speedY))
    ensures r.(enemies := s.enemies, bulletTimer := s.bulletTimer, enemyBullets := s.enemyBullets) == s
  {
    var i := s.currentEnemyIndex;
    var e := s.enemies[i];
    var f := FireStep(e, s.bulletTimer);
    s.(enemies := s.enemies[i := f.enemy], bulletTimer := f.timer,
       enemyBullets := s.enemyBullets + if f.fired then [SpawnEnemyBullet(e.x, e.y, speedX, speedY)] else [])
  }

  /** The current enemy moves, then runs its fire cycle while it has hit points left. */
  function EnemyActed(s: State, speedX: real, speedY: real): (r: State)
    requires s.currentEnemyIndex < |s.enemies|
    ensures r.currentEnemyIndex == s.currentEnemyIndex && |r.enemies| == |s.enemies|
    ensures r.modes == s.modes && r.playerHp == s.playerHp && r.playerBullets == s.playerBullets
    ensures SurroundingsKept(s, r)
  {
    var m := EnemyMoved(s);
    if m.enemies[m.currentEnemyIndex].hp > 0 then FireTicked(m, speedX, speedY) else m
  }

  /** Both collections advance one tick and lose the bullets that left their bounds. */
  function BulletsAdvanced(s: State): (r: State)
    ensures forall b :: b in r.enemyBullets ==> OnScreen(EnemyShot, b)
    ensures forall b :: b in r.playerBullets ==> OnScreen(PlayerShot, b)
    ensures |r.enemyBullets| <= |s.enemyBullets| && |r.playerBullets| <= |s.playerBullets|
    ensures r.(enemyBullets := s.enemyBullets, playerBullets := s.playerBullets) == s
  {
    s.(enemyBullets := Prune(EnemyShot, MoveAll(s.enemyBullets)),
       playerBullets := Prune(PlayerShot, MoveAll(s.playerBullets)))
  }

  /** The outcome of a collision check: the new state and whether the target is down. */
  datatype Checked = Checked(state: State, down: bool)

  /** Player bullets against the current enemy: the first bullet that hits deals
      `damage`, is removed and is announced; `down` tells whether the enemy is out of
      hit points. */
  function EnemyHitCheck(s: State, damage: int): (c: Checked)
    requires s.currentEnemyIndex < |s.enemies|
    ensures c.state.currentEnemyIndex == s.currentEnemyIndex && |c.state.enemies| == |s.enemies|
    ensures c.state.modes == s.modes && c.state.enemyBullets == s.enemyBullets
    ensures c.state.playerHp == s.playerHp
    ensures c.down ==> c.state.enemies[s.currentEnemyIndex].hp <= 0
    ensures SurroundingsKept(s, c.state) && c.state.bulletTimer == s.bulletTimer
  {
    var i := s.currentEnemyIndex;
    var e := s.enemies[i];
    match FirstHit(s.playerBullets, EnemyBox(e))
    case None => Checked(s, false)
    case Some(k) =>
      var hit := e.(hp := e.hp - damage);
      var t := s.(enemies := s.enemies[i := hit], playerBullets := RemoveAt(s.playerBullets, k));
      Checked(Announced(t, EnemyHitMsg(damage, hit.hp)), hit.hp <= 0)
  }

  /** Enemy bullets against the heart: the first bullet that hits costs
      ENEMY_BULLET_DAMAGE hit points, is removed and is announced; `down` tells
      whether the player is out of hit points. */
  function HeartHitCheck(s: State): (c: Checked)
    ensures c.state.currentEnemyIndex == s.currentEnemyIndex && c.state.enemies == s.enemies
    ensures c.state.modes == s.modes && c.state.playerBullets == s.playerBullets
    ensures c.down ==> c.state.playerHp <= 0
    ensures SurroundingsKept(s, c.state) && c.state.bulletTimer == s.bulletTimer
  {
    match FirstHit(s.enemyBullets, HeartBox(s.heartX, s.heartY))
    case None => Checked(s, false)
    case Some(k) =>
      var hp := s.playerHp - ENEMY_BULLET_DAMAGE;
      var t := s.(playerHp := hp, enemyBullets := RemoveAt(s.enemyBullets, k));
      Checked(Announced(t, HeartHitMsg(hp)), hp <= 0)
  }

  /** The enemy-defeat branch: the defeat is announced, the index moves to the next
      enemy and both collections are cleared; past the last enemy the battle is won and
      ends, otherwise the next enemy's fire cycle is re-armed (its hit points and
      position stay as they are). */
  function EnemyDefeated(s: State): (r: State)
    requires s.currentEnemyIndex < |s.enemies|
    ensures var next := s.currentEnemyIndex + 1;
            && r.currentEnemyIndex == next
            && r.dialogueText == EnemyDefeatedMsg(next) && r.dialogueTimer == DIALOGUE_TICKS
            && r.enemyBullets == [] && r.playerBullets == []
            && |r.enemies| == |s.enemies|
            && (next == |s.enemies| ==>
                  && r.modes == s.modes.(battleWon := true, enemyActive := false, battleMode := false)
                  && r.enemies == s.enemies)
            && (next < |s.enemies| ==>
                  && r.modes == s.modes
                  && r.enemies == s.enemies[next := s.enemies[next].(firing := true, bulletCount := 0, waitTimer := 0)])
    // the player, the heart and the cadence counter are untouched
    ensures r.playerHp == s.playerHp && r.bulletTimer == s.bulletTimer
    ensures r.heartX == s.heartX && r.heartY == s.heartY && r.playerX == s.playerX && r.playerY == s.playerY
    ensures SurroundingsKept(s, r)
  {
    var next := s.currentEnemyIndex + 1;
    var a := Announced(s, EnemyDefeatedMsg(next)).(currentEnemyIndex := next);
    var b :=
      if next >= |s.enemies| then
        a.(modes := a.modes.(battleWon := true, enemyActive := false, battleMode := false))
      else
        a.(enemies := a.enemies[next := a.enemies[next].(firing := true, bulletCount := 0, waitTimer := 0)]);
    b.(enemyBullets := [], playerBullets := [])
  }

  /** Player bullets against the current enemy, then the enemy-defeat branch if it is down. */
  function PlayerHitsResolved(s: State, damage: int): (r: State)
    requires s.currentEnemyIndex < |s.enemies|
    ensures r.currentEnemyIndex == s.currentEnemyIndex || r.currentEnemyIndex == s.currentEnemyIndex + 1
    ensures r.currentEnemyIndex == s.currentEnemyIndex ==> r.modes == s.modes && r.enemyBullets == s.enemyBullets
    ensures r.currentEnemyIndex != s.currentEnemyIndex ==>
              r.enemyBullets == [] && r.playerBullets == [] && r.dialogueText == EnemyDefeatedMsg(r.currentEnemyIndex)
    ensures |r.enemies| == |s.enemies| && r.playerHp == s.playerHp && r.bulletTimer == s.bulletTimer
    ensures SurroundingsKept(s, r)
  {
    var c := EnemyHitCheck(s, damage);
    if c.down && c.state.enemies[c.state.currentEnemyIndex].hp <= 0 then EnemyDefeated(c.state)
    else c.state
  }

  /** The game-over announcement; the battle ends without a win. */
  function GameLost(s: State): (r: State)
    ensures r.dialogueText == GameOverMsg && r.dialogueTimer == DIALOGUE_TICKS
    ensures r.modes == s.modes.(battleMode := false, enemyActive := false)
    ensures r.(dialogueText := s.dialogueText, dialogueTimer := s.dialogueTimer, modes := s.modes) == s
  {
    Announced(s, GameOverMsg).(modes := s.modes.(battleMode := false, enemyActive := false))
  }

  /** Enemy bullets against the heart, then the player-defeat branch if the heart is
      down: game over when hit points are gone, and both collections are cleared. */
  function EnemyHitsResolved(s: State): (r: State)
    ensures r.playerHp == s.playerHp || r.playerHp == s.playerHp - ENEMY_BULLET_DAMAGE
    ensures r.playerHp <= 0 < s.playerHp ==>
              && r.modes == s.modes.(battleMode := false, enemyActive := false)
              && r.dialogueText == GameOverMsg && r.enemyBullets == [] && r.playerBullets == []
    ensures r.playerHp > 0 ==> r.modes == s.modes
    ensures r.enemies == s.enemies && r.currentEnemyIndex == s.currentEnemyIndex && r.bulletTimer == s.bulletTimer
    ensures SurroundingsKept(s, r)
  {
    var c := HeartHitCheck(s);
    if c.down then
      var l := if c.state.playerHp <= 0 then GameLost(c.state) else c.state;
      l.(enemyBullets := [], playerBullets := [])
    else c.state
  }

  /** Player bullets are resolved first, enemy bullets second. */
  function HitsResolved(s: State, damage: int): (r: State)
    requires s.currentEnemyIndex < |s.enemies|
    ensures r.currentEnemyIndex == s.currentEnemyIndex || r.currentEnemyIndex == s.currentEnemyIndex + 1
    ensures r.playerHp == s.playerHp || r.playerHp == s.playerHp - ENEMY_BULLET_DAMAGE
    ensures |r.enemies| == |s.enemies| && r.bulletTimer == s.bulletTimer
    ensures SurroundingsKept(s, r)
  {
    EnemyHitsResolved(PlayerHitsResolved(s, damage))
  }

  /** The current enemy's part of a battle frame: it acts, the bullets advance, then
      the hits are resolved. */
  function EnemyTurnDone(s: State, speedX: real, speedY: real, damage: int): (r: State)
    requires s.currentEnemyIndex < |s.enemies|
    ensures r.currentEnemyIndex == s.currentEnemyIndex || r.currentEnemyIndex == s.currentEnemyIndex + 1
    ensures r.playerHp == s.playerHp || r.playerHp == s.playerHp - ENEMY_BULLET_DAMAGE
    ensures |r.enemies| == |s.enemies|
    ensures SurroundingsKept(s, r)
  {
    var a := EnemyActed(s, speedX, speedY);
    var b := BulletsAdvanced(a);
    HitsResolved(b, damage)
  }

  /** A frame of a running battle: the heart moves, the current enemy takes its turn
      while one is active, and the dialogue box counts down if the battle is still
      on the screen afterwards. */
  function BattleFrameDone(s: State, speedX: real, speedY: real, damage: int): (r: State)
    ensures HeartInBox(r.heartX, r.heartY)
    ensures r.playerX == s.playerX && r.playerY == s.playerY
    ensures r.currentEnemyIndex == s.currentEnemyIndex || r.currentEnemyIndex == s.currentEnemyIndex + 1
    ensures r.playerHp == s.playerHp || r.playerHp == s.playerHp - ENEMY_BULLET_DAMAGE
    ensures r.modes.started == s.modes.started && r.modes.paused == s.modes.paused
    ensures r.heartSpeedX == s.heartSpeedX && r.heartSpeedY == s.heartSpeedY
  {
    var h := HeartMoved(s);
    var t := if h.modes.enemyActive && h.currentEnemyIndex < |h.enemies|
             then EnemyTurnDone(h, speedX, speedY, damage) else h;
    if t.modes.battleMode && !t.modes.battleWon then CountedDown(t) else t
  }

  /** One frame: the start menu, the pause overlay and the win screen change nothing;
      free roam moves the player sprite; otherwise a battle frame runs. */
  function Ticked(s: State, held: Held, speedX: real, speedY: real, damage: int): (r: State)
    ensures !s.modes.started || s.modes.paused || s.modes.battleWon ==> r == s
    ensures r.modes.started == s.modes.started && r.modes.paused == s.modes.paused
    ensures r.heartSpeedX == s.heartSpeedX && r.heartSpeedY == s.heartSpeedY
  {
    if !s.modes.started || s.modes.paused || s.modes.battleWon then s
    else if !s.modes.battleMode then PlayerWalked(s, held)
    else BattleFrameDone(s, speedX, speedY, damage)
  }
}
