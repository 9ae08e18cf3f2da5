/** The running game: its globals as the fields of one object, updated in place by
    the event handler and the per-frame update of the main loop. Every method is proved
    to change the object exactly as the matching function on `State` says. */
module Session {
  import opened Config
  import opened Input
  import opened Movement
  import opened Bullets
  import opened Enemies
  import opened Collision
  import opened Modes
  import opened GameState
  import opened Events
  import opened Frame
  import opened FrameProperties

  class Game {
    var playerX: int
    var playerY: int
    var heartX: int
    var heartY: int
    var heartSpeedX: int
    var heartSpeedY: int
    var playerHp: int
    var battleMode: bool
    var enemyBullets: seq<Bullet>
    var playerBullets: seq<Bullet>
    var gameStarted: bool
    var paused: bool
    var battleWon: bool
    var dialogueText: Message
    var dialogueTimer: int
    var enemies: seq<Enemy>
    var currentEnemyIndex: nat
    var enemyActive: bool
    /** The cadence counter, shared by whichever enemy is current. */
    var bulletTimer: int

    /** The fields as one value. */
    ghost function Snapshot(): State
      reads this
    {
      State(playerX, playerY, heartX, heartY, heartSpeedX, heartSpeedY, playerHp,
            ModeState(gameStarted, paused, battleMode, enemyActive, battleWon),
            enemyBullets, playerBullets, dialogueText, dialogueTimer,
            enemies, currentEnemyIndex, bulletTimer)
    }

    ghost predicate Valid()
      reads this
    {
      Inv(Snapshot())
    }

    constructor ()
      ensures Snapshot() == Initial() && Valid()
    {
      playerX, playerY := PLAYER_START_X, PLAYER_START_Y;
      heartX, heartY := HEART_START_X, HEART_START_Y;
      heartSpeedX, heartSpeedY := 0, 0;
      playerHp := PLAYER_MAX_HP;
      battleMode := false;
      enemyBullets, playerBullets := [], [];
      gameStarted, paused, battleWon := false, false, false;
      dialogueText, dialogueTimer := Blank, 0;
      enemies := INITIAL_ROSTER;
      currentEnemyIndex := 0;
      enemyActive := false;
      bulletTimer := 0;
      InitialValid();
    }

    method SetDialogue(msg: Message)
      modifies this`dialogueText, this`dialogueTimer
      ensures Snapshot() == Announced(old(Snapshot()), msg)
    {
      dialogueText := msg;
      dialogueTimer := DIALOGUE_TICKS;
    }

    method CountDownDialogue()
      modifies this`dialogueTimer
      ensures Snapshot() == CountedDown(old(Snapshot()))
    {
      if dialogueTimer > 0 {
        dialogueTimer := dialogueTimer - 1;
      }
    }

    /** WASD steering of the heart's velocity. */
    method HandleHeartMovement(ev: Event)
      modifies this`heartSpeedX, this`heartSpeedY
      ensures Snapshot() == Steered(old(Snapshot()), ev)
    {
      match ev {
        case KeyDown(k) =>
          if k == KeyA {
            heartSpeedX := -HEART_SPEED;
          } else if k == KeyD {
            heartSpeedX := HEART_SPEED;
          } else if k == KeyW {
            heartSpeedY := -HEART_SPEED;
          } else if k == KeyS {
            heartSpeedY := HEART_SPEED;
          }
        case KeyUp(k) =>
          if k == KeyA || k == KeyD {
            heartSpeedX := 0;
          }
          if k == KeyW || k == KeyS {
            heartSpeedY := 0;
          }
        case OtherEvent =>
      }
    }

    /** Resets every roster entry in place, in roster order. */
    method ResetEnemies()
      modifies this`enemies
      ensures Snapshot() == old(Snapshot()).(enemies := ResetRoster(old(enemies)))
    {
      var i := 0;
      while i < |enemies|
        invariant 0 <= i <= |enemies| == |old(enemies)|
        invariant forall j :: 0 <= j < i ==> enemies[j] == ResetEnemy(old(enemies)[j], j)
        invariant forall j :: i <= j < |enemies| ==> enemies[j] == old(enemies)[j]
      {
        var e := enemies[i];
        e := e.(hp := e.maxHp, firing := true, bulletCount := 0, waitTimer := 0, x := (WIDTH / 2) as real);
        if i == 0 {
          e := e.(y := 150.0);
        } else if i == 1 {
          e := e.(y := 130.0);
        } else if i == 2 {
          e := e.(y := 170.0);
        }
        enemies := enemies[i := e];
        i := i + 1;
      }
      assert enemies == ResetRoster(old(enemies));
    }

    /** Starts a new battle after a win. */
    method ResetGame()
      modifies this`playerHp, this`battleMode, this`enemyActive, this`currentEnemyIndex,
               this`enemyBullets, this`playerBullets, this`battleWon, this`dialogueText,
               this`dialogueTimer, this`enemies
      ensures Snapshot() == Restarted(old(Snapshot()))
    {
      RestartProgress();
      SetBattleMode(true);
      ClearBullets();
      battleWon := false;
      dialogueText, dialogueTimer := Blank, 0;
      ResetEnemies();
    }

    /** Enters or leaves battle mode; the current enemy is advanced exactly during a battle. */
    method SetBattleMode(on: bool)
      modifies this`battleMode, this`enemyActive
      ensures Snapshot() == old(Snapshot()).(modes := old(Snapshot()).modes.(battleMode := on, enemyActive := on))
    {
      battleMode := on;
      enemyActive := on;
    }

    method ClearBullets()
      modifies this`enemyBullets, this`playerBullets
      ensures Snapshot() == old(Snapshot()).(enemyBullets := [], playerBullets := [])
    {
      enemyBullets := [];
      playerBullets := [];
    }

    method RecentreHeart()
      modifies this`heartX, this`heartY
      ensures Snapshot() == old(Snapshot()).(heartX := HEART_START_X, heartY := HEART_START_Y)
    {
      heartX, heartY := HEART_START_X, HEART_START_Y;
    }

    /** Back to the first enemy, with the player at full health. */
    method RestartProgress()
      modifies this`currentEnemyIndex, this`playerHp
      ensures Snapshot() == old(Snapshot()).(currentEnemyIndex := 0, playerHp := PLAYER_MAX_HP)
    {
      currentEnemyIndex := 0;
      playerHp := PLAYER_MAX_HP;
    }

    /** The B key. */
    method ToggleBattleMode()
      modifies this`battleMode, this`enemyActive, this`enemyBullets, this`playerBullets,
               this`heartX, this`heartY, this`currentEnemyIndex, this`playerHp, this`enemies
      ensures Snapshot() == BattleToggled(old(Snapshot()))
    {
      SetBattleMode(!battleMode);
      ClearBullets();
      RecentreHeart();
      RestartProgress();
      if battleMode {
        ResetEnemies();
      }
    }

    /** SPACE in a battle. */
    method FirePlayerBullet()
      modifies this`playerBullets
      ensures Snapshot() == BulletFired(old(Snapshot()))
    {
      playerBullets := playerBullets + [SpawnPlayerBullet(heartX, heartY)];
    }

    /** The key dispatch: at most one action per key press, chosen by the mode flags. */
    method PerformKey(ev: Event)
      modifies this`gameStarted, this`paused, this`battleMode, this`enemyActive, this`enemyBullets,
               this`playerBullets, this`heartX, this`heartY, this`currentEnemyIndex, this`playerHp,
               this`enemies, this`battleWon, this`dialogueText, this`dialogueTimer
      ensures Snapshot() == KeyApplied(old(Snapshot()), ev)
    {
      match Dispatch(ModeState(gameStarted, paused, battleMode, enemyActive, battleWon), ev)
      case StartGame =>
        gameStarted := true;
      case TogglePause =>
        paused := !paused;
      case ToggleBattle =>
        ToggleBattleMode();
      case FireBullet =>
        FirePlayerBullet();
      case RestartBattle =>
        ResetGame();
      case NoAction =>
    }

    /** One event: the key dispatch, then heart steering if a battle is running. */
    method HandleEvent(ev: Event)
      modifies this
      ensures Snapshot() == EventApplied(old(Snapshot()), ev)
      ensures old(Valid()) ==> Valid()
    {
      if Valid() {
        EventKeepsInvariant(Snapshot(), ev);
      }
      PerformKey(ev);
      if battleMode && !paused && !battleWon {
        HandleHeartMovement(ev);
      }
    }

    method MoveHeart()
      modifies this`heartX, this`heartY
      ensures Snapshot() == HeartMoved(old(Snapshot()))
    {
      heartX := heartX + heartSpeedX;
      heartY := heartY + heartSpeedY;
      var p := ConstrainHeart(heartX, heartY);
      heartX, heartY := p.0, p.1;
    }

    /** The current enemy's bounce, written back into the roster. */
    method MoveCurrentEnemy()
      requires currentEnemyIndex < |enemies|
      modifies this`enemies
      ensures Snapshot() == EnemyMoved(old(Snapshot()))
    {
      enemies := enemies[currentEnemyIndex := UpdateEnemy(enemies[currentEnemyIndex])];
    }

    /** One tick of the current enemy's fire cycle; a fired bullet gets the drawn velocity. */
    method FireCycle(speedX: real, speedY: real)
      requires currentEnemyIndex < |enemies|
      modifies this`enemies, this`bulletTimer, this`enemyBullets
      ensures Snapshot() == FireTicked(old(Snapshot()), speedX, speedY)
    {
      var i := currentEnemyIndex;
      var e := enemies[i];
      if e.firing {
        bulletTimer := bulletTimer + 1;
        if bulletTimer >= CADENCE && e.bulletCount < SHOT_CAP {
          enemyBullets := enemyBullets + [SpawnEnemyBullet(e.x, e.y, speedX, speedY)];
          e := e.(bulletCount := e.bulletCount + 1);
          bulletTimer := 0;
        }
        if e.bulletCount >= SHOT_CAP {
          e := e.(firing := false, waitTimer := REST_TICKS);
        }
      } else {
        e := e.(waitTimer := e.waitTimer - 1);
        if e.waitTimer <= 0 {
          e := e.(firing := true, bulletCount := 0);
        }
      }
      enemies := enemies[i := e];
    }

    /** The current enemy moves, then runs its fire cycle while it has hit points. */
    method MoveAndFire(speedX: real, speedY: real)
      requires currentEnemyIndex < |enemies|
      modifies this`enemies, this`bulletTimer, this`enemyBullets
      ensures Snapshot() == EnemyActed(old(Snapshot()), speedX, speedY)
    {
      MoveCurrentEnemy();
      if enemies[currentEnemyIndex].hp > 0 {
        FireCycle(speedX, speedY);
      }
    }

    method UpdateBullets()
      modifies this`enemyBullets, this`playerBullets
      ensures Snapshot() == BulletsAdvanced(old(Snapshot()))
    {
      var e := AdvanceAndPrune(EnemyShot, enemyBullets);
      var p := AdvanceAndPrune(PlayerShot, playerBullets);
      enemyBullets, playerBullets := e, p;
    }

    /** Player bullets against the current enemy; the result says whether it is down. */
    method CheckEnemyCollision(damage: int) returns (defeated: bool)
      requires currentEnemyIndex < |enemies|
      modifies this`playerBullets, this`enemies, this`dialogueText, this`dialogueTimer
      ensures var c := EnemyHitCheck(old(Snapshot()), damage);
              Snapshot() == c.state && defeated == c.down
    {
      var i := currentEnemyIndex;
      var e := enemies[i];
      var box := EnemyBox(e);
      var k := 0;
      while k < |playerBullets| && !Hits(box, playerBullets[k])
        invariant 0 <= k <= |playerBullets|
        invariant forall j :: 0 <= j < k ==> !Hits(box, playerBullets[j])
      {
        k := k + 1;
      }
      if k == |playerBullets| {
        return false;
      }
      assert FirstHit(playerBullets, box) == Some(k);
      enemies := enemies[i := e.(hp := e.hp - damage)];
      playerBullets := RemoveAt(playerBullets, k);
      SetDialogue(EnemyHitMsg(damage, e.hp - damage));
      return e.hp - damage <= 0;
    }

    /** Enemy bullets against the heart; the result says whether the player is down. */
    method CheckHeartCollision() returns (defeated: bool)
      modifies this`enemyBullets, this`playerHp, this`dialogueText, this`dialogueTimer
      ensures var c := HeartHitCheck(old(Snapshot()));
              Snapshot() == c.state && defeated == c.down
    {
      var box := HeartBox(heartX, heartY);
      var k := 0;
      while k < |enemyBullets| && !Hits(box, enemyBullets[k])
        invariant 0 <= k <= |enemyBullets|
        invariant forall j :: 0 <= j < k ==> !Hits(box, enemyBullets[j])
      {
        k := k + 1;
      }
      if k == |enemyBullets| {
        return false;
      }
      assert FirstHit(enemyBullets, box) == Some(k);
      playerHp := playerHp - ENEMY_BULLET_DAMAGE;
      enemyBullets := RemoveAt(enemyBullets, k);
      SetDialogue(HeartHitMsg(playerHp));
      return playerHp <= 0;
    }

    /** The enemy-defeat branch. */
    method DefeatCurrentEnemy()
      requires currentEnemyIndex < |enemies|
      modifies this`dialogueText, this`dialogueTimer, this`currentEnemyIndex, this`battleWon,
               this`enemyActive, this`battleMode, this`enemies, this`enemyBullets, this`playerBullets
      ensures Snapshot() == EnemyDefeated(old(Snapshot()))
    {
      ghost var s0 := Snapshot();
      SetDialogue(EnemyDefeatedMsg(currentEnemyIndex + 1));
      currentEnemyIndex := currentEnemyIndex + 1;
      ghost var s1 := Snapshot();
      assert s1 == Announced(s0, EnemyDefeatedMsg(s0.currentEnemyIndex + 1)).(currentEnemyIndex := s0.currentEnemyIndex + 1);
      if currentEnemyIndex >= |enemies| {
        battleWon := true;
        SetBattleMode(false);
        assert Snapshot() == s1.(modes := s1.modes.(battleWon := true, enemyActive := false, battleMode := false));
      } else {
        var e := enemies[currentEnemyIndex];
        enemies := enemies[currentEnemyIndex := e.(firing := true, bulletCount := 0, waitTimer := 0)];
        assert Snapshot() == s1.(enemies := s1.enemies[s1.currentEnemyIndex := e.(firing := true, bulletCount := 0, waitTimer := 0)]);
      }
      ClearBullets();
    }

    /** Player bullets against the current enemy, and the enemy-defeat branch when it goes down. */
    method ResolvePlayerHits(damage: int)
      requires currentEnemyIndex < |enemies|
      modifies this`playerBullets, this`enemies, this`dialogueText, this`dialogueTimer,
               this`currentEnemyIndex, this`battleWon, this`enemyActive, this`battleMode, this`enemyBullets
      ensures Snapshot() == PlayerHitsResolved(old(Snapshot()), damage)
    {
      var enemyDown := CheckEnemyCollision(damage);
      if enemyDown {
        if enemies[currentEnemyIndex].hp <= 0 {
          DefeatCurrentEnemy();
        }
      }
    }

    /** The game-over announcement; the battle ends without being won. */
    method LoseBattle()
      modifies this`dialogueText, this`dialogueTimer, this`battleMode, this`enemyActive
      ensures Snapshot() == GameLost(old(Snapshot()))
    {
      SetDialogue(GameOverMsg);
      battleMode := false;
      enemyActive := false;
    }

    /** Enemy bullets against the heart, and the player-defeat branch when the heart goes down. */
    method ResolveEnemyHits()
      modifies this`enemyBullets, this`playerHp, this`dialogueText, this`dialogueTimer,
               this`battleMode, this`enemyActive, this`playerBullets
      ensures Snapshot() == EnemyHitsResolved(old(Snapshot()))
    {
      var heartDown := CheckHeartCollision();
      if heartDown {
        if playerHp <= 0 {
          LoseBattle();
        }
        ClearBullets();
      }
    }

    /** Player bullets against the current enemy, then enemy bullets against the heart. */
    method ResolveHits(damage: int)
      requires currentEnemyIndex < |enemies|
      modifies this`enemies, this`enemyBullets, this`playerBullets, this`playerHp,
               this`dialogueText, this`dialogueTimer, this`currentEnemyIndex, this`battleWon,
               this`enemyActive, this`battleMode
      ensures Snapshot() == HitsResolved(old(Snapshot()), damage)
    {
      ResolvePlayerHits(damage);
      ResolveEnemyHits();
    }

    /** The current enemy's part of a battle frame. */
    method EnemyPhase(speedX: real, speedY: real, damage: int)
      requires currentEnemyIndex < |enemies|
      modifies this`enemies, this`bulletTimer, this`enemyBullets, this`playerBullets, this`playerHp,
               this`dialogueText, this`dialogueTimer, this`currentEnemyIndex, this`battleWon,
               this`enemyActive, this`battleMode
      ensures Snapshot() == EnemyTurnDone(old(Snapshot()), speedX, speedY, damage)
    {
      MoveAndFire(speedX, speedY);
      UpdateBullets();
      ResolveHits(damage);
    }

    /** A frame of a running battle. */
    method BattleFrame(speedX: real, speedY: real, damage: int)
      modifies this`heartX, this`heartY, this`enemies, this`bulletTimer, this`enemyBullets,
               this`playerBullets, this`playerHp, this`dialogueText, this`dialogueTimer,
               this`currentEnemyIndex, this`battleWon, this`enemyActive, this`battleMode
      ensures Snapshot() == BattleFrameDone(old(Snapshot()), speedX, speedY, damage)
    {
      MoveHeart();
      if enemyActive && currentEnemyIndex < |enemies| {
        EnemyPhase(speedX, speedY, damage);
      }
      if battleMode && !battleWon {
        CountDownDialogue();
      }
    }

    /** One frame of the main loop. `held` is the polled arrow-key state, (speedX,
        speedY) the velocity drawn for an enemy bullet fired this frame and `damage`
        the damage drawn for a player bullet that hits this frame. */
    method Tick(held: Held, speedX: real, speedY: real, damage: int)
      requires MIN_HIT_DAMAGE <= damage <= MAX_HIT_DAMAGE
      modifies this
      ensures Snapshot() == Ticked(old(Snapshot()), held, speedX, speedY, damage)
      ensures old(Valid()) ==> Valid()
    {
      if Valid() {
        TickKeepsInvariant(Snapshot(), held, speedX, speedY, damage);
      }
      if !gameStarted || paused || battleWon {
        return;
      }
      if !battleMode {
        var p := HandlePlayerMovement(held, playerX, playerY, PLAYER_SPEED);
        playerX, playerY := p.0, p.1;
      } else {
        BattleFrame(speedX, speedY, damage);
      }
    }
  }
}
