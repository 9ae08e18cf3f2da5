/** What one input event does to the game: the key dispatch and the heart's steering. */
module Events {
  import opened Config
  import opened Input
  import opened Movement
  import opened Bullets
  import opened Enemies
  import opened Modes
  import opened GameState

  /** The roster after every entry was reset, in roster order. */
  function ResetRoster(es: seq<Enemy>): (r: seq<Enemy>)
    ensures |r| == |es|
    ensures forall i :: 0 <= i < |es| ==> r[i] == ResetEnemy(es[i], i)
  {
    seq(|es|, i requires 0 <= i < |es| => ResetEnemy(es[i], i))
  }

  /** A reset roster satisfies the roster invariant and every enemy has hit points left. */
  lemma RosterResetValid(es: seq<Enemy>)
    requires |es| == ROSTER_SIZE && RosterOk(es)
    ensures RosterOk(ResetRoster(es)) && AliveSuffix(ResetRoster(es), 0)
  {
    var r := ResetRoster(es);
    forall i | 0 <= i < |es|
      ensures EnemyValid(r[i]) && r[i].hp > 0
    {
      assert EnemyValid(es[i]);
    }
  }

  /** The heart's velocity after the event. */
  function Steered(s: State, ev: Event): (r: State)
    ensures (r.heartSpeedX, r.heartSpeedY) == SteerHeart(ev, s.heartSpeedX, s.heartSpeedY)
    ensures r.(heartSpeedX := s.heartSpeedX, heartSpeedY := s.heartSpeedY) == s
  {
    var v := SteerHeart(ev, s.heartSpeedX, s.heartSpeedY);
    s.(heartSpeedX := v.0, heartSpeedY := v.1)
  }

  /** The retry from the win screen: full hit points, back in a battle against the
      first enemy, no bullets, a blank dialogue and a reset roster. The heart is not
      moved: the assignment meant for it binds local names. */
  function Restarted(s: State): (r: State)
    ensures r.modes.battleMode && r.modes.enemyActive && !r.modes.battleWon
    ensures r.modes.started == s.modes.started && r.modes.paused == s.modes.paused
    ensures r.playerHp == PLAYER_MAX_HP && r.currentEnemyIndex == 0
    ensures r.enemyBullets == [] && r.playerBullets == []
    ensures r.dialogueText == Blank && r.dialogueTimer == 0
    ensures r.enemies == ResetRoster(s.enemies)
    // the heart, its velocity, the player sprite and the cadence counter stay as they were
    ensures r.heartX == s.heartX && r.heartY == s.heartY
    ensures r.heartSpeedX == s.heartSpeedX && r.heartSpeedY == s.heartSpeedY
    ensures r.playerX == s.playerX && r.playerY == s.playerY && r.bulletTimer == s.bulletTimer
  {
    s.(playerHp := PLAYER_MAX_HP,
       modes := s.modes.(battleMode := true, enemyActive := true, battleWon := false),
       currentEnemyIndex := 0,
       enemyBullets := [], playerBullets := [],
       dialogueText := Blank, dialogueTimer := 0,
       enemies := ResetRoster(s.enemies))
  }

  /** The B key: into or out of a battle. Either way both collections are cleared, the
      heart is re-centred, the index and the player's hit points are restored; the
      roster is reset only on entering. */
  function BattleToggled(s: State): (r: State)
    ensures r.modes.battleMode == !s.modes.battleMode && r.modes.enemyActive == r.modes.battleMode
    ensures r.modes == s.modes.(battleMode := r.modes.battleMode, enemyActive := r.modes.enemyActive)
    ensures r.enemyBullets == [] && r.playerBullets == []
    ensures r.heartX == HEART_START_X && r.heartY == HEART_START_Y
    ensures r.currentEnemyIndex == 0 && r.playerHp == PLAYER_MAX_HP
    ensures r.modes.battleMode ==> r.enemies == ResetRoster(s.enemies)
    ensures !r.modes.battleMode ==> r.enemies == s.enemies
    // the dialogue, the heart's velocity, the player sprite and the cadence counter are untouched
    ensures r.dialogueText == s.dialogueText && r.dialogueTimer == s.dialogueTimer
    ensures r.heartSpeedX == s.heartSpeedX && r.heartSpeedY == s.heartSpeedY
    ensures r.playerX == s.playerX && r.playerY == s.playerY && r.bulletTimer == s.bulletTimer
  {
    var on := !s.modes.battleMode;
    s.(modes := s.modes.(battleMode := on, enemyActive := on),
       enemyBullets := [], playerBullets := [],
       heartX := HEART_START_X, heartY := HEART_START_Y,
       currentEnemyIndex := 0, playerHp := PLAYER_MAX_HP,
       enemies := if on then ResetRoster(s.enemies) else s.enemies)
  }

  /** SPACE in a battle: one player bullet spawned at the heart joins the collection. */
  function BulletFired(s: State): (r: State)
    ensures |r.playerBullets| == |s.playerBullets| + 1
    ensures r.playerBullets[..|s.playerBullets|] == s.playerBullets
    ensures r.playerBullets[|s.playerBullets|] == SpawnPlayerBullet(s.heartX, s.heartY)
    ensures r.(playerBullets := s.playerBullets) == s
  {
    s.(playerBullets := s.playerBullets + [SpawnPlayerBullet(s.heartX, s.heartY)])
  }

  /** The key dispatch: the action `Dispatch` picks, applied to the state. */
  function KeyApplied(s: State, ev: Event): (r: State)
    ensures r.modes == NextModes(s.modes, Dispatch(s.modes, ev))
    ensures r.playerX == s.playerX && r.playerY == s.playerY && r.bulletTimer == s.bulletTimer
    ensures r.heartSpeedX == s.heartSpeedX && r.heartSpeedY == s.heartSpeedY
  {
    match Dispatch(s.modes, ev)
    case StartGame => s.(modes := s.modes.(started := true))
    case TogglePause => s.(modes := s.modes.(paused := !s.modes.paused))
    case ToggleBattle => BattleToggled(s)
    case FireBullet => BulletFired(s)
    case RestartBattle => Restarted(s)
    case NoAction => s
  }

  /** One event: the key dispatch, then the heart's steering if, afterwards, an
      unpaused battle that is not won is running. */
  function EventApplied(s: State, ev: Event): (r: State)
    ensures r.modes == NextModes(s.modes, Dispatch(s.modes, ev))
    ensures r.playerX == s.playerX && r.playerY == s.playerY && r.bulletTimer == s.bulletTimer
    ensures r.modes.battleMode && !r.modes.paused && !r.modes.battleWon ==>
              (r.heartSpeedX, r.heartSpeedY) == SteerHeart(ev, s.heartSpeedX, s.heartSpeedY)
    ensures !(r.modes.battleMode && !r.modes.paused && !r.modes.battleWon) ==>
              r.heartSpeedX == s.heartSpeedX && r.heartSpeedY == s.heartSpeedY
  {
    var k := KeyApplied(s, ev);
    if k.modes.battleMode && !k.modes.paused && !k.modes.battleWon then Steered(k, ev) else k
  }

  /** Entering or leaving a battle with B keeps the invariant. */
  lemma BattleToggledKeepsInvariant(s: State)
    requires Inv(s) && s.modes.started && !s.modes.paused && !s.modes.battleWon
    ensures Inv(BattleToggled(s))
  {
    if !s.modes.battleMode {
      RosterResetValid(s.enemies);
    }
  }

  /** The retry from the win screen keeps the invariant. */
  lemma RestartedKeepsInvariant(s: State)
    requires Inv(s) && s.modes.battleWon
    ensures Inv(Restarted(s))
  {
    RosterResetValid(s.enemies);
  }

  /** No key press breaks the invariant. */
  lemma KeyKeepsInvariant(s: State, ev: Event)
    requires Inv(s)
    ensures Inv(KeyApplied(s, ev))
  {
    DispatchKeepsModesValid(s.modes, ev);
    match Dispatch(s.modes, ev)
    case ToggleBattle => BattleToggledKeepsInvariant(s);
    case RestartBattle => RestartedKeepsInvariant(s);
    case _ =>
  }

  /** No event breaks the invariant. */
  lemma EventKeepsInvariant(s: State, ev: Event)
    requires Inv(s)
    ensures Inv(EventApplied(s, ev))
  {
    KeyKeepsInvariant(s, ev);
  }

  /** B followed by B, from free roam, ends in free roam with the bullets gone, the
      heart centred, full hit points and the roster reset. */
  lemma ToggleTwice(s: State)
    requires Inv(s) && s.modes.started && !s.modes.paused && !s.modes.battleWon && !s.modes.battleMode
    ensures var t := EventApplied(EventApplied(s, KeyDown(KeyB)), KeyDown(KeyB));
            && t.modes == s.modes
            && t.enemyBullets == [] && t.playerBullets == []
            && t.heartX == HEART_START_X && t.heartY == HEART_START_Y
            && t.playerHp == PLAYER_MAX_HP && t.currentEnemyIndex == 0
            && t.enemies == ResetRoster(s.enemies)
            && t.dialogueText == s.dialogueText && t.dialogueTimer == s.dialogueTimer
  {
    var t1 := KeyApplied(s, KeyDown(KeyB));
    assert t1 == BattleToggled(s);
    assert EventApplied(s, KeyDown(KeyB)) == Steered(t1, KeyDown(KeyB));
  }
}
