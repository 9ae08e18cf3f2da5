/** What a frame promises: the invariant survives every frame, first-hit-wins
    resolution, at most one enemy change and at most one heart hit per frame, and the
    two ways a battle ends. */
module FrameProperties {
  import opened Config
  import opened Input
  import opened Movement
  import opened Bullets
  import opened Enemies
  import opened Collision
  import opened Modes
  import opened GameState
  import opened Frame

  lemma HeartMovedKeepsInvariant(s: State)
    requires Inv(s)
    ensures Inv(HeartMoved(s))
  {
  }

  /** The enemy's move and fire-cycle tick keep the roster, the shared counter and the
      enemy bullets within the invariant, and no enemy gains or loses hit points. */
  lemma EnemyActedKeepsInvariant(s: State, speedX: real, speedY: real)
    requires Inv(s) && s.currentEnemyIndex < |s.enemies|
    ensures Inv(EnemyActed(s, speedX, speedY))
  {
    var i := s.currentEnemyIndex;
    var m := EnemyMoved(s);
    assert EnemyValid(s.enemies[i]);
    assert EnemyValid(m.enemies[i]);
    assert forall j :: 0 <= j < |s.enemies| ==> m.enemies[j].hp == s.enemies[j].hp;
    assert Inv(m);
    if m.enemies[i].hp > 0 {
      var e := m.enemies[i];
      var f := FireStep(e, m.bulletTimer);
      var r := FireTicked(m, speedX, speedY);
      assert EnemyValid(f.enemy);
      assert forall j :: 0 <= j < |s.enemies| ==> r.enemies[j].hp == s.enemies[j].hp;
      assert f.fired ==> OnScreen(EnemyShot, SpawnEnemyBullet(e.x, e.y, speedX, speedY));
      assert RosterOk(r.enemies);
      assert BulletsOk(r);
    }
  }

  lemma BulletsAdvancedKeepsInvariant(s: State)
    requires Inv(s)
    ensures Inv(BulletsAdvanced(s))
  {
    AdvanceAndPruneMeaning(EnemyShot, s.enemyBullets);
    AdvanceAndPruneMeaning(PlayerShot, s.playerBullets);
  }

  /** First hit wins against the current enemy: with no bullet on it nothing changes;
      otherwise exactly one bullet goes, the first in collection order that hits, the
      enemy loses `damage` hit points once, the hit is announced, and the enemy is down
      exactly when its hit points are gone. No other enemy changes. */
  lemma EnemyHitCheckFirstHitWins(s: State, damage: int)
    requires s.currentEnemyIndex < |s.enemies|
    ensures var i := s.currentEnemyIndex;
            var e := s.enemies[i];
            var box := EnemyBox(e);
            var c := EnemyHitCheck(s, damage);
            && ((forall b :: b in s.playerBullets ==> !Hits(box, b)) ==> c == Checked(s, false))
            && ((exists b :: b in s.playerBullets && Hits(box, b)) ==>
                  && (exists k :: 0 <= k < |s.playerBullets| && Hits(box, s.playerBullets[k])
                        && (forall j :: 0 <= j < k ==> !Hits(box, s.playerBullets[j]))
                        && c.state.playerBullets == RemoveAt(s.playerBullets, k))
                  && |c.state.playerBullets| == |s.playerBullets| - 1
                  && c.state.enemies == s.enemies[i := e.(hp := e.hp - damage)]
                  && c.state.dialogueText == EnemyHitMsg(damage, e.hp - damage)
                  && c.state.dialogueTimer == DIALOGUE_TICKS
                  && c.down == (e.hp - damage <= 0))
  {
    var box := EnemyBox(s.enemies[s.currentEnemyIndex]);
    var bs := s.playerBullets;
    match FirstHit(bs, box)
    case None =>
      forall b | b in bs
        ensures !Hits(box, b)
      {
        var j :| 0 <= j < |bs| && bs[j] == b;
      }
    case Some(k) =>
      assert bs[k] in bs;
  }

  /** First hit wins against the heart: with no bullet on it nothing changes; otherwise
      exactly one bullet goes, the first in collection order that hits, the player loses
      ENEMY_BULLET_DAMAGE hit points once, the hit is announced, and the heart is down
      exactly when its hit points are gone. */
  lemma HeartHitCheckFirstHitWins(s: State)
    ensures var box := HeartBox(s.heartX, s.heartY);
            var c := HeartHitCheck(s);
            && ((forall b :: b in s.enemyBullets ==> !Hits(box, b)) ==> c == Checked(s, false))
            && ((exists b :: b in s.enemyBullets && Hits(box, b)) ==>
                  && (exists k :: 0 <= k < |s.enemyBullets| && Hits(box, s.enemyBullets[k])
                        && (forall j :: 0 <= j < k ==> !Hits(box, s.enemyBullets[j]))
                        && c.state.enemyBullets == RemoveAt(s.enemyBullets, k))
                  && |c.state.enemyBullets| == |s.enemyBullets| - 1
                  && c.state.playerHp == s.playerHp - ENEMY_BULLET_DAMAGE
                  && c.state.dialogueText == HeartHitMsg(s.playerHp - ENEMY_BULLET_DAMAGE)
                  && c.state.dialogueTimer == DIALOGUE_TICKS
                  && c.down == (s.playerHp - ENEMY_BULLET_DAMAGE <= 0))
  {
    var box := HeartBox(s.heartX, s.heartY);
    var bs := s.enemyBullets;
    match FirstHit(bs, box)
    case None =>
      forall b | b in bs
        ensures !Hits(box, b)
      {
        var j :| 0 <= j < |bs| && bs[j] == b;
      }
    case Some(k) =>
      assert bs[k] in bs;
  }

  /** After the check against the current enemy everything but who is alive is still
      in order; an enemy that is not down still has hit points, one that is down has
      none while all after it do. */
  lemma EnemyHitCheckOutcome(s: State, damage: int)
    requires Inv(s) && s.modes.battleMode && s.currentEnemyIndex < |s.enemies|
    requires MIN_HIT_DAMAGE <= damage <= MAX_HIT_DAMAGE
    ensures var c := EnemyHitCheck(s, damage);
            && Wellformed(c.state) && c.state.playerHp > 0
            && (c.down ==> AliveSuffix(c.state.enemies, s.currentEnemyIndex + 1))
            && (!c.down ==> Inv(c.state))
  {
    var i := s.currentEnemyIndex;
    var c := EnemyHitCheck(s, damage);
    match FirstHit(s.playerBullets, EnemyBox(s.enemies[i]))
    case None =>
    case Some(k) =>
      assert EnemyValid(s.enemies[i]);
      assert RosterOk(c.state.enemies);
  }

  /** The enemy-defeat branch keeps the invariant: either the next enemy, which has hit
      points, becomes current, or the battle is won and over. */
  lemma EnemyDefeatedKeepsInvariant(s: State)
    requires Wellformed(s) && s.modes.battleMode && !s.modes.paused && s.currentEnemyIndex < |s.enemies|
    requires AliveSuffix(s.enemies, s.currentEnemyIndex + 1) && s.playerHp > 0
    ensures Inv(EnemyDefeated(s))
  {
    var next := s.currentEnemyIndex + 1;
    if next < |s.enemies| {
      var r := EnemyDefeated(s);
      assert EnemyValid(s.enemies[next]);
      assert RosterOk(r.enemies);
    }
  }

  lemma PlayerHitsKeepInvariant(s: State, damage: int)
    requires Inv(s) && s.modes.battleMode && !s.modes.paused && s.currentEnemyIndex < |s.enemies|
    requires MIN_HIT_DAMAGE <= damage <= MAX_HIT_DAMAGE
    ensures Inv(PlayerHitsResolved(s, damage))
  {
    EnemyHitCheckOutcome(s, damage);
    var c := EnemyHitCheck(s, damage);
    if c.down && c.state.enemies[c.state.currentEnemyIndex].hp <= 0 {
      EnemyDefeatedKeepsInvariant(c.state);
    }
  }

  /** The check against the heart and the player-defeat branch keep the invariant: a
      battle goes on only while the player has hit points left. */
  lemma EnemyHitsKeepInvariant(s: State)
    requires Inv(s)
    ensures Inv(EnemyHitsResolved(s))
  {
    var c := HeartHitCheck(s);
    match FirstHit(s.enemyBullets, HeartBox(s.heartX, s.heartY))
    case None =>
    case Some(k) =>
      assert BulletsOk(c.state);
  }

  lemma EnemyTurnKeepsInvariant(s: State, speedX: real, speedY: real, damage: int)
    requires Inv(s) && s.modes.battleMode && !s.modes.paused && s.currentEnemyIndex < |s.enemies|
    requires MIN_HIT_DAMAGE <= damage <= MAX_HIT_DAMAGE
    ensures Inv(EnemyTurnDone(s, speedX, speedY, damage))
  {
    var a := EnemyActed(s, speedX, speedY);
    EnemyActedKeepsInvariant(s, speedX, speedY);
    BulletsAdvancedKeepsInvariant(a);
    var b := BulletsAdvanced(a);
    PlayerHitsKeepInvariant(b, damage);
    EnemyHitsKeepInvariant(PlayerHitsResolved(b, damage));
  }

  /** No frame breaks the invariant. */
  lemma TickKeepsInvariant(s: State, held: Held, speedX: real, speedY: real, damage: int)
    requires Inv(s)
    requires MIN_HIT_DAMAGE <= damage <= MAX_HIT_DAMAGE
    ensures Inv(Ticked(s, held, speedX, speedY, damage))
  {
    if s.modes.started && !s.modes.paused && !s.modes.battleWon && s.modes.battleMode {
      var h := HeartMoved(s);
      HeartMovedKeepsInvariant(s);
      if h.modes.enemyActive && h.currentEnemyIndex < |h.enemies| {
        EnemyTurnKeepsInvariant(h, speedX, speedY, damage);
      }
    }
  }

  /** The start menu, the pause overlay and the win screen freeze the game. */
  lemma FrozenScreensChangeNothing(s: State, held: Held, speedX: real, speedY: real, damage: int)
    requires !s.modes.started || s.modes.paused || s.modes.battleWon
    ensures Ticked(s, held, speedX, speedY, damage) == s
  {
  }

  /** In free roam a frame moves the player sprite and nothing else. */
  lemma FreeRoamMovesOnlyPlayer(s: State, held: Held, speedX: real, speedY: real, damage: int)
    requires s.modes.started && !s.modes.paused && !s.modes.battleWon && !s.modes.battleMode
    ensures var r := Ticked(s, held, speedX, speedY, damage);
            && (r.playerX, r.playerY) == HandlePlayerMovement(held, s.playerX, s.playerY, PLAYER_SPEED)
            && r.(playerX := s.playerX, playerY := s.playerY) == s
  {
  }

  /** A heart check on an empty collection changes nothing. */
  lemma NoEnemyBulletsNoHit(s: State)
    requires s.enemyBullets == []
    ensures EnemyHitsResolved(s) == s
  {
    assert FirstHit(s.enemyBullets, HeartBox(s.heartX, s.heartY)) == None;
  }

  /** In one frame the current-enemy index moves forward by at most one; when it moves,
      both collections are empty and the defeat is on the dialogue line. */
  lemma FrameIndexStep(s: State, held: Held, speedX: real, speedY: real, damage: int)
    ensures var r := Ticked(s, held, speedX, speedY, damage);
            && s.currentEnemyIndex <= r.currentEnemyIndex <= s.currentEnemyIndex + 1
            && (r.currentEnemyIndex != s.currentEnemyIndex ==>
                  && r.enemyBullets == [] && r.playerBullets == []
                  && r.dialogueText == EnemyDefeatedMsg(r.currentEnemyIndex))
  {
    if s.modes.started && !s.modes.paused && !s.modes.battleWon && s.modes.battleMode {
      var h := HeartMoved(s);
      if h.modes.enemyActive && h.currentEnemyIndex < |h.enemies| {
        var b := BulletsAdvanced(EnemyActed(h, speedX, speedY));
        var p := PlayerHitsResolved(b, damage);
        if p.currentEnemyIndex != b.currentEnemyIndex {
          NoEnemyBulletsNoHit(p);
        }
      }
    }
  }

  /** In one frame the player loses ENEMY_BULLET_DAMAGE hit points or none. */
  lemma FrameHpStep(s: State, held: Held, speedX: real, speedY: real, damage: int)
    ensures var r := Ticked(s, held, speedX, speedY, damage);
            r.playerHp == s.playerHp || r.playerHp == s.playerHp - ENEMY_BULLET_DAMAGE
  {
    if s.modes.started && !s.modes.paused && !s.modes.battleWon && s.modes.battleMode {
      var h := HeartMoved(s);
      if h.modes.enemyActive && h.currentEnemyIndex < |h.enemies| {
        var b := BulletsAdvanced(EnemyActed(h, speedX, speedY));
        var p := PlayerHitsResolved(b, damage);
        assert p.playerHp == s.playerHp;
      }
    }
  }

  /** The hit that takes the player's last hit points ends the battle with game over:
      the battle and the enemy stop, both collections are cleared, the message is up
      for its full countdown, and the battle is not won. */
  lemma LethalHitEndsBattle(s: State, held: Held, speedX: real, speedY: real, damage: int)
    ensures var r := Ticked(s, held, speedX, speedY, damage);
            r.playerHp <= 0 < s.playerHp ==>
              && !r.modes.battleMode && !r.modes.enemyActive && !r.modes.battleWon
              && r.dialogueText == GameOverMsg && r.dialogueTimer == DIALOGUE_TICKS
              && r.enemyBullets == [] && r.playerBullets == []
  {
    if s.modes.started && !s.modes.paused && !s.modes.battleWon && s.modes.battleMode {
      var h := HeartMoved(s);
      if h.modes.enemyActive && h.currentEnemyIndex < |h.enemies| {
        var b := BulletsAdvanced(EnemyActed(h, speedX, speedY));
        var p := PlayerHitsResolved(b, damage);
        assert p.playerHp == s.playerHp;
        if p.currentEnemyIndex != b.currentEnemyIndex {
          NoEnemyBulletsNoHit(p);
        }
      }
    }
  }

  /** The frame that defeats the last enemy wins the battle: the index reaches the end
      of the roster, the battle and the enemy stop, both collections are cleared and
      the defeat is up for its full countdown. */
  lemma LastDefeatWinsBattle(s: State, held: Held, speedX: real, speedY: real, damage: int)
    ensures var r := Ticked(s, held, speedX, speedY, damage);
            !s.modes.battleWon && r.modes.battleWon ==>
              && r.currentEnemyIndex == |r.enemies|
              && !r.modes.battleMode && !r.modes.enemyActive
              && r.dialogueText == EnemyDefeatedMsg(r.currentEnemyIndex)
              && r.dialogueTimer == DIALOGUE_TICKS
              && r.enemyBullets == [] && r.playerBullets == []
  {
    if s.modes.started && !s.modes.paused && !s.modes.battleWon && s.modes.battleMode {
      var h := HeartMoved(s);
      if h.modes.enemyActive && h.currentEnemyIndex < |h.enemies| {
        var b := BulletsAdvanced(EnemyActed(h, speedX, speedY));
        var p := PlayerHitsResolved(b, damage);
        if p.currentEnemyIndex != b.currentEnemyIndex {
          NoEnemyBulletsNoHit(p);
        }
      }
    }
  }

  /** A lethal hit on an enemy that is not the last one moves the battle to the next
      enemy: index up by one, both collections cleared, the next enemy's fire cycle
      re-armed with its hit points and position kept, and the battle goes on. */
  lemma DefeatMovesToNextEnemy(s: State, damage: int)
    requires s.modes.battleMode && s.currentEnemyIndex + 1 < |s.enemies|
    requires FirstHit(s.playerBullets, EnemyBox(s.enemies[s.currentEnemyIndex])).Some?
    requires s.enemies[s.currentEnemyIndex].hp <= damage
    ensures var i := s.currentEnemyIndex;
            var r := PlayerHitsResolved(s, damage);
            && r.currentEnemyIndex == i + 1
            && r.enemyBullets == [] && r.playerBullets == []
            && r.enemies[i + 1] == s.enemies[i + 1].(firing := true, bulletCount := 0, waitTimer := 0)
            && r.enemies[i].hp == s.enemies[i].hp - damage
            && (forall j :: 0 <= j < |s.enemies| && j != i && j != i + 1 ==> r.enemies[j] == s.enemies[j])
            && r.modes == s.modes
            && r.dialogueText == EnemyDefeatedMsg(i + 1)
  {
    EnemyHitCheckFirstHitWins(s, damage);
  }

  /** A lethal hit on the last enemy wins the battle and ends it. */
  lemma DefeatOfLastEnemyWins(s: State, damage: int)
    requires s.modes.battleMode && s.currentEnemyIndex + 1 == |s.enemies|
    requires FirstHit(s.playerBullets, EnemyBox(s.enemies[s.currentEnemyIndex])).Some?
    requires s.enemies[s.currentEnemyIndex].hp <= damage
    ensures var r := PlayerHitsResolved(s, damage);
            && r.currentEnemyIndex == |s.enemies|
            && r.modes.battleWon && !r.modes.battleMode && !r.modes.enemyActive
            && r.enemyBullets == [] && r.playerBullets == []
            && r.dialogueText == EnemyDefeatedMsg(|s.enemies|)
  {
    EnemyHitCheckFirstHitWins(s, damage);
  }

  /** A player with ENEMY_BULLET_DAMAGE hit points or fewer who is hit loses the
      battle: no hit points left, game over, no battle, no win, no bullets. */
  lemma LastHitLosesBattle(s: State)
    requires s.modes.battleMode && !s.modes.battleWon
    requires s.playerHp <= ENEMY_BULLET_DAMAGE
    requires FirstHit(s.enemyBullets, HeartBox(s.heartX, s.heartY)).Some?
    ensures var r := EnemyHitsResolved(s);
            && r.playerHp == s.playerHp - ENEMY_BULLET_DAMAGE <= 0
            && !r.modes.battleMode && !r.modes.enemyActive && !r.modes.battleWon
            && r.dialogueText == GameOverMsg
            && r.enemyBullets == [] && r.playerBullets == []
  {
    HeartHitCheckFirstHitWins(s);
  }
}
