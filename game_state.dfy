/** The game's global state as one value, the invariant it keeps between frames and
    the dialogue box that both the key handler and the frame update write to. */
module GameState {
  import opened Config
  import opened Movement
  import opened Bullets
  import opened Enemies
  import opened Modes

  /** The dialogue line, kept as the event it reports instead of formatted text. */
  datatype Message =
    | Blank
    | EnemyHitMsg(damage: int, hpLeft: int)
    | HeartHitMsg(hpLeft: int)
    | EnemyDefeatedMsg(ordinal: int)
    | GameOverMsg

  /** Starting positions: both sprites centred on the screen. */
  const PLAYER_START_X: int := WIDTH / 2 - 72
  const PLAYER_START_Y: int := HEIGHT / 2 - 72
  const HEART_START_X: int := WIDTH / 2 - 24
  const HEART_START_Y: int := HEIGHT / 2 - 24

  /** Every global the battle core reads or writes. `bulletTimer` is the cadence
      counter shared by whichever enemy is current. */
  datatype State = State(
    playerX: int, playerY: int,
    heartX: int, heartY: int, heartSpeedX: int, heartSpeedY: int,
    playerHp: int,
    modes: ModeState,
    enemyBullets: seq<Bullet>, playerBullets: seq<Bullet>,
    dialogueText: Message, dialogueTimer: int,
    enemies: seq<Enemy>, currentEnemyIndex: nat,
    bulletTimer: int)

  /** The state the game starts in: start menu, free roam, full roster. */
  function Initial(): State {
    State(PLAYER_START_X, PLAYER_START_Y, HEART_START_X, HEART_START_Y, 0, 0, PLAYER_MAX_HP,
          ModeState(false, false, false, false, false), [], [], Blank, 0, INITIAL_ROSTER, 0, 0)
  }

  /** The sprites' positions and the heart's velocity. */
  ghost predicate PositionsOk(s: State) {
    && PlayerInWindow(s.playerX, s.playerY)
    && HeartInBox(s.heartX, s.heartY)
    && IsHeartSpeed(s.heartSpeedX) && IsHeartSpeed(s.heartSpeedY)
  }

  /** The mode flags, and a won battle exactly when the index has run past the roster. */
  ghost predicate ProgressOk(s: State) {
    && ModesValid(s.modes)
    && |s.enemies| == ROSTER_SIZE
    && s.currentEnemyIndex <= |s.enemies|
    && (s.modes.battleWon <==> s.currentEnemyIndex == |s.enemies|)
  }

  ghost predicate RosterOk(es: seq<Enemy>) {
    forall i :: 0 <= i < |es| ==> EnemyValid(es[i])
  }

  ghost predicate CountersOk(s: State) {
    && s.playerHp <= PLAYER_MAX_HP
    && 0 <= s.bulletTimer < CADENCE
    && 0 <= s.dialogueTimer <= DIALOGUE_TICKS
  }

  /** Every live bullet is within its owner's bounds. */
  ghost predicate BulletsOk(s: State) {
    && (forall b :: b in s.enemyBullets ==> OnScreen(EnemyShot, b))
    && (forall b :: b in s.playerBullets ==> OnScreen(PlayerShot, b))
  }

  /** Exactly the enemies from position `k` on have hit points left. */
  ghost predicate AliveSuffix(es: seq<Enemy>, k: int) {
    forall j :: 0 <= j < |es| ==> (es[j].hp > 0 <==> k <= j)
  }

  /** Everything the game keeps true between frames, except who is still alive. */
  ghost predicate Wellformed(s: State) {
    PositionsOk(s) && ProgressOk(s) && RosterOk(s.enemies) && CountersOk(s) && BulletsOk(s)
  }

  /** During a battle exactly the enemies from the current one on have hit points
      left, and so does the player. */
  ghost predicate Alive(s: State) {
    s.modes.battleMode ==> AliveSuffix(s.enemies, s.currentEnemyIndex) && s.playerHp > 0
  }

  ghost predicate Inv(s: State) {
    Wellformed(s) && Alive(s)
  }

  lemma InitialValid()
    ensures Inv(Initial())
  {
    assert forall i :: 0 <= i < ROSTER_SIZE ==> EnemyValid(INITIAL_ROSTER[i]);
  }

  /** `r` has the player sprite, the heart, its velocity and the started and paused
      flags as `s` has them: nothing a battle step other than the heart's move touches. */
  ghost predicate SurroundingsKept(s: State, r: State) {
    && r.playerX == s.playerX && r.playerY == s.playerY
    && r.heartX == s.heartX && r.heartY == s.heartY
    && r.heartSpeedX == s.heartSpeedX && r.heartSpeedY == s.heartSpeedY
    && r.modes.started == s.modes.started && r.modes.paused == s.modes.paused
  }

  /** The dialogue box shows `msg` for DIALOGUE_TICKS frames. */
  function Announced(s: State, msg: Message): (r: State)
    ensures r.dialogueText == msg && r.dialogueTimer == DIALOGUE_TICKS
    ensures r.(dialogueText := s.dialogueText, dialogueTimer := s.dialogueTimer) == s
  {
    s.(dialogueText := msg, dialogueTimer := DIALOGUE_TICKS)
  }

  /** The countdown the dialogue box performs each time it is drawn. */
  function CountedDown(s: State): (r: State)
    ensures s.dialogueTimer > 0 ==> r.dialogueTimer == s.dialogueTimer - 1
    ensures s.dialogueTimer <= 0 ==> r.dialogueTimer == s.dialogueTimer
    ensures r.(dialogueTimer := s.dialogueTimer) == s
  {
    if s.dialogueTimer > 0 then s.(dialogueTimer := s.dialogueTimer - 1) else s
  }
}
