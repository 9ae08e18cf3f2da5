/** The game's mode flags and how a key press moves between them. */
module Modes {
  import opened Input

  /** started: past the start menu; paused: the pause overlay is up; battleMode: in a
      battle rather than free roam; enemyActive: the current enemy is advanced each tick;
      battleWon: the win screen is up. */
  datatype ModeState = ModeState(
    started: bool, paused: bool, battleMode: bool, enemyActive: bool, battleWon: bool)

  /** The branch of the key dispatch an event takes. */
  datatype Action = NoAction | StartGame | TogglePause | ToggleBattle | FireBullet | RestartBattle

  /** The combinations of flags the game can reach. */
  ghost predicate ModesValid(m: ModeState) {
    && (m.paused ==> m.started && !m.battleWon)
    && (m.battleMode ==> m.started && !m.battleWon)
    && (m.battleWon ==> m.started)
    && m.enemyActive == m.battleMode
  }

  /** The key dispatch: the first matching branch of SPACE-to-start, P-to-pause,
      B-to-toggle-battle, SPACE-to-fire and SPACE-to-retry. */
  function Dispatch(m: ModeState, ev: Event): (a: Action)
    ensures a != NoAction ==> ev.KeyDown?
    ensures a == StartGame <==> ev == KeyDown(KeySpace) && !m.started
    // P pauses and unpauses any started game, but is ignored once the battle is won
    ensures a == TogglePause <==> ev == KeyDown(KeyP) && m.started && !m.battleWon
    // B is ignored while paused and once the battle is won
    ensures a == ToggleBattle <==> ev == KeyDown(KeyB) && m.started && !m.paused && !m.battleWon
    ensures a == FireBullet <==> ev == KeyDown(KeySpace) && m.started && m.battleMode && !m.paused && !m.battleWon
    ensures a == RestartBattle <==> ev == KeyDown(KeySpace) && m.started && m.battleWon
  {
    match ev
    case KeyDown(k) =>
      if !m.started && k == KeySpace then StartGame
      else if m.started && k == KeyP && !m.battleWon then TogglePause
      else if m.started && k == KeyB && !m.paused && !m.battleWon then ToggleBattle
      else if m.battleMode && !m.paused && !m.battleWon && k == KeySpace then FireBullet
      else if m.battleWon && k == KeySpace then RestartBattle
      else NoAction
    case _ => NoAction
  }

  /** The mode flags after the dispatched action. */
  function NextModes(m: ModeState, a: Action): (r: ModeState)
    ensures r.battleWon ==> m.battleWon && a != RestartBattle
    ensures a == StartGame ==> r == m.(started := true)
    ensures a == TogglePause ==> r == m.(paused := !m.paused)
    ensures a == ToggleBattle ==> r == m.(battleMode := !m.battleMode, enemyActive := !m.battleMode)
    ensures a == RestartBattle ==> r == m.(battleMode := true, enemyActive := true, battleWon := false)
    ensures a in {NoAction, FireBullet} ==> r == m
  {
    match a
    case StartGame => m.(started := true)
    case TogglePause => m.(paused := !m.paused)
    case ToggleBattle => m.(battleMode := !m.battleMode, enemyActive := !m.battleMode)
    case RestartBattle => m.(battleMode := true, enemyActive := true, battleWon := false)
    case _ => m
  }

  /** The dispatch never leaves the reachable combinations of flags. */
  lemma DispatchKeepsModesValid(m: ModeState, ev: Event)
    requires ModesValid(m)
    ensures ModesValid(NextModes(m, Dispatch(m, ev)))
  {
  }

  /** Pressing P twice in a started, unwon game restores every flag. */
  lemma PauseTwiceRestores(m: ModeState)
    requires m.started && !m.battleWon
    ensures var m1 := NextModes(m, Dispatch(m, KeyDown(KeyP)));
            NextModes(m1, Dispatch(m1, KeyDown(KeyP))) == m
  {
  }
}
