# Undertale clone: battle core in Dafny

This project models the game logic of `undertale.py`, a small pygame game. It covers:

- The player walks around freely with the arrow keys.
- After pressing B (or SPACE on the win screen) the player is in a battle.
- In a battle the player steers a heart inside a battle box with WASD and shoots upward with SPACE.
- Three enemies (a frog, a bat and a flower) fight one after the other. Each one bounces left and right and fires volleys of bullets.

The game keeps all of its state in module-level globals. The model gathers them into one object, `Session.Game`, whose methods change its fields in place. The same globals also form one value, `GameState.State`. `Session.Game.Snapshot` reads the object's fields as that value.

Each step of the event handler and of the frame update is defined as a function from one `State` to the next. Examples are `Events.KeyApplied`, `Frame.EnemyHitCheck`, `Frame.HitsResolved` and `Frame.Ticked`. Every method of `Session.Game` is proved to change the object exactly as its function says: its new snapshot equals that function applied to the old snapshot. The properties of the game are lemmas about these functions:

- invariants every step keeps;
- first-hit-wins resolution;
- how far one frame can move the enemy index and the player's hit points;
- the two ways a battle ends.

The pure helpers of the game are also modelled as functions:

- movement and clamping
- bullet spawning and pruning
- the enemy bounce and the fire cycle
- hit tests
- the key dispatch

Modules:

| module | file | contents |
|---|---|---|
| `Config` | `config.dfy` | the game's constants |
| `Input` | `input.dfy` | key events and the polled arrow-key state |
| `Movement` | `movement.dfy` | free-roam movement, heart steering, confinement to the battle box |
| `Bullets` | `bullets.dfy` | spawning, advancing and pruning bullets |
| `Enemies` | `enemies.dfy` | the enemy record, its bounce, the FIRING/RESTING fire cycle, the reset of one enemy |
| `Collision` | `collision.dfy` | hitboxes and the first-hit-wins search |
| `Modes` | `modes.dfy` | the mode flags and the key dispatch as a pure function |
| `GameState` | `game_state.dfy` | the globals as one value, the invariant, the dialogue box |
| `Events` | `events.dfy` | what one input event does to the state |
| `Frame` | `frame.dfy` | what one frame does to the state, step by step |
| `FrameProperties` | `frame_properties.dfy` | what a frame promises |
| `Session` | `session.dfy` | the game object, whose methods update its fields in place |

The invariant `GameState.Inv` holds between any two events and frames. `Session.Game.Valid` states it of the object. It says:

- the player sprite lies inside the window;
- the heart lies inside the battle box, and each component of its velocity is -5, 0 or 5;
- the mode flags are in a reachable combination;
- the battle is won exactly when the enemy index equals the roster size;
- every enemy is inside its bounds and in a valid fire-cycle state;
- every live bullet is inside its owner's bounds;
- the counters stay in range;
- during a battle, exactly the enemies from the current index on have hit points left, and the player has hit points left.

Two facts make the model's list operations match the game's `list.remove(bullet)` calls:

- The game removes a bullet by equality, which removes the first element equal to it. When a bullet is pruned or resolved, every earlier bullet got the opposite verdict: it stayed on screen or it missed. So no earlier element can equal the removed bullet.
- That makes the game's removal the same as removing at the bullet's own position. This is what `Bullets.Prune` and `Collision.RemoveAt` do.

Randomness is passed in as parameters:

- `Session.Game.Tick` takes the velocity drawn for an enemy bullet fired in this frame.
- It also takes the damage drawn for a player bullet that hits in this frame. A precondition keeps that damage in 5..10.

Behaviour of `undertale.py` that the model keeps exactly as written:

- Enemy hit points are not clamped at zero. A hit can leave an enemy below zero.
- There is no separate LOST outcome. The game-over branch shows its message and drops back to free roam. The player's hit points stay at or below zero until B is pressed again.
- The battle is won as soon as the enemy index reaches the roster size, not when it exceeds it.
- Retrying from the win screen (`reset_game`) does not move the heart back to the centre. Its assignment binds local names. The B toggle does re-centre the heart.
- The B toggle empties both collections, sets the enemy index to 0 and restores the player's hit points to full, also when it leaves a battle. It resets the roster only when it enters one. It never touches the dialogue.
- A hit on the heart that leaves hit points clears nothing. The clearing branch is entered only on a lethal hit, because the collision check returns whether hit points are at or below zero.
- The shared cadence counter is reset only by a shot. It is not reset when a new enemy becomes current, not by B, and not by a retry.
- The dialogue box counts down only in frames where it is drawn. That happens during a battle that is not won. A game-over message therefore keeps its full countdown until the next battle.

## Model

| member | source | states |
|---|---|---|
| Movement.HandlePlayerMovement | undertale.py:118-130 | the sprite ends inside the window; on each axis it moves by the net displacement of the held keys, or stops at the edge it would have crossed |
| Movement.OppositeKeysCancel | undertale.py:118-130 | holding two opposite arrow keys moves the sprite exactly as holding neither |
| Movement.PlayerRestsWithoutKeys | undertale.py:118-130 | with no key held, a sprite inside the window does not move |
| Movement.SteerHeart | undertale.py:132-148 | a press of a/d/w/s sets that axis to -5/+5 without touching the other axis; a release of either key of an axis stops that axis; other events change nothing; speeds stay in {-5,0,5} |
| Movement.ReleaseStopsAxisWhileOppositeHeld | undertale.py:132-148 | pressing a, then d, then releasing a stops horizontal motion although d is still held |
| Movement.DiagonalFromRest | undertale.py:132-148 | pressing a then w from rest moves the heart diagonally up-left at full speed on both axes |
| Movement.ConstrainHeart | undertale.py:150-154 | the result lies inside the battle box; a point already inside is unchanged; a point outside moves to the nearest edge on each axis |
| Movement.ConstrainHeartIdempotent | undertale.py:150-154 | constraining twice is the same as constraining once |
| Bullets.SpawnEnemyBullet | undertale.py:156-162 | the bullet carries the drawn velocity and starts at (enemy x + 72, enemy y + 144): at the enemy's right hitbox edge, below its hitbox, and on the screen when the enemy is within its bounds |
| Bullets.SpawnPlayerBullet | undertale.py:164-166 | the bullet starts on the heart's top edge and moves straight up at 5 per tick; it starts inside the player-bullet bounds whenever the heart is in the box |
| Bullets.Prune | undertale.py:168-179 | every bullet within the owner's bounds survives with all of its copies, every other bullet with none; so the result holds exactly the in-bounds bullets |
| Bullets.PruneIsSubsequence | undertale.py:168-179 | pruning keeps the surviving bullets in their original order |
| Bullets.PruneKeepsInBounds | undertale.py:168-179 | pruning a collection that lies within bounds changes nothing |
| Bullets.PruneIdempotent | undertale.py:168-179 | pruning twice is the same as pruning once |
| Bullets.AdvanceAndPrune | undertale.py:168-179 | the loop over a collection yields its bullets, each moved by its velocity, minus those that left the bounds |
| Bullets.AdvanceAndPruneMeaning | undertale.py:168-179 | after a tick, every remaining bullet is within bounds; the remaining bullets are the moved ones in order; each moved bullet within bounds remains with all of its copies, and no other bullet does |
| Enemies.UpdateEnemy | undertale.py:181-186 | the enemy ends within [72, 728]; its speed flips sign exactly when the move would put the sprite past an edge, and then it is clamped to the edge it crossed; otherwise it moves by its speed; nothing else changes |
| Enemies.FireStep | undertale.py:315-329 | a firing enemy fires exactly when the shared counter reaches 10 with fewer than 8 shots, and the counter restarts; it turns to resting with 300 ticks ahead when it reaches 8 shots; a resting enemy counts down and is re-armed with no shots at zero; the fire-cycle invariant is kept |
| Enemies.CadenceWait | undertale.py:316-318 | below the cadence, an armed enemy only advances the shared counter |
| Enemies.NextShot | undertale.py:316-321 | with the shared counter at t, the next shot comes 10 - t ticks later, so a newly current enemy inherits the previous one's counter |
| Enemies.Volley | undertale.py:316-324 | from a counter at zero, m more shots take exactly 10m ticks, and the eighth shot starts the rest |
| Enemies.RestCountdown | undertale.py:325-329 | a resting enemy counts down for its remaining wait ticks, then is armed with no shots; the shared counter is untouched |
| Enemies.FullCycle | undertale.py:315-329 | an armed enemy fires 8 shots, rests 300 ticks and is armed again after exactly (10 - t) + 70 + 300 ticks |
| Enemies.ResetEnemy | undertale.py:97-110 | the reset enemy has full hit points, is armed with no shots, is centred horizontally at its own height, and keeps its speed |
| Collision.FirstHit | undertale.py:188-212 | the result is the first bullet, in collection order, whose box overlaps the target box; there is none exactly when no bullet overlaps |
| Collision.RemoveAt | undertale.py:196 | removing one bullet shortens the collection by one and adds no bullet |
| Collision.ResolveRemovesOnlyFirstHit | undertale.py:191-198 | resolving a hit removes exactly the first hitting bullet: the bullets before it, none of which hit, and the bullets after it stay in order |
| Modes.Dispatch | undertale.py:273-291 | SPACE starts the game from the start menu; P toggles pause in a started, unwon game; B toggles battle in a started game unless paused or won; SPACE fires during an unpaused battle; SPACE on the win screen restarts; nothing else acts (each as an if-and-only-if) |
| Modes.NextModes | undertale.py:273-291 | the flags after each action: a start sets only the started flag, pause flips, the battle toggle flips the battle and enemy flags together, a restart re-enters a battle and clears the win, firing and no action change no flag, and only an existing win survives |
| Modes.DispatchKeepsModesValid | undertale.py:273-291 | a key press never leads to an unreachable combination of flags |
| Modes.PauseTwiceRestores | undertale.py:276-277 | pressing P twice in a started, unwon game restores every flag |
| GameState.InitialValid | undertale.py:49-69 | the initial state satisfies the invariant |
| GameState.Announced | undertale.py:112-116 | the message is shown with a countdown of 120 frames and nothing else changes |
| GameState.CountedDown | undertale.py:230-238 | a positive countdown drops by one, otherwise it stays; nothing else changes |
| Events.ResetRoster | undertale.py:97-110 | the roster keeps its length and every entry is reset with its own position as index |
| Events.RosterResetValid | undertale.py:97-110 | after a roster reset every enemy satisfies the roster invariant and has hit points left |
| Events.Restarted | undertale.py:82-95 | the retry puts the game back in a battle against the first enemy, without a win, at full hit points, with no bullets, a blank dialogue and a reset roster; the heart, its velocity, the player sprite, the cadence counter and the started and paused flags stay as they were |
| Events.BattleToggled | undertale.py:278-287 | B flips the battle flag and sets the enemy flag to match; both collections are emptied, the heart is centred, the index is 0 and hit points are full whichever way it goes; the roster is reset on entering and kept on leaving; the dialogue, the heart's velocity, the player sprite and the cadence counter are untouched |
| Events.BulletFired | undertale.py:288-289 | one player bullet spawned at the heart is appended after the existing ones, and nothing else changes |
| Events.Steered | undertale.py:132-148 | the heart's velocity becomes the steering of the event applied to the old velocity; nothing else changes |
| Events.KeyApplied | undertale.py:273-291 | the flags after a key press are those of the action the dispatch picks; no key press moves the player sprite, touches the cadence counter or changes the heart's velocity |
| Events.EventApplied | undertale.py:273-293 | after the key's action, the heart's velocity is steered by the event exactly when an unpaused, unwon battle is running, and is kept otherwise; the player sprite and the cadence counter never change on an event |
| Events.BattleToggledKeepsInvariant | undertale.py:278-287 | entering or leaving a battle with B keeps the invariant |
| Events.RestartedKeepsInvariant | undertale.py:82-95 | the retry from the win screen keeps the invariant |
| Events.KeyKeepsInvariant | undertale.py:273-291 | no key press breaks the invariant |
| Events.EventKeepsInvariant | undertale.py:273-293 | no event breaks the invariant |
| Events.ToggleTwice | undertale.py:278-287 | B twice from free roam ends in free roam with both collections empty, the heart centred, full hit points, the index at zero, the roster reset and the dialogue untouched |
| Frame.EnemyActed | undertale.py:312-329 | the enemy's move and fire step keep the index, the roster size, the flags, the player's hit points, the player bullets, the heart and the player sprite |
| Frame.EnemyHitCheck | undertale.py:188-199 | the check against the current enemy keeps the index, the roster size, the flags, the enemy bullets, the player's hit points, the cadence counter, the heart and the player sprite; an enemy reported down has no hit points left |
| Frame.HeartHitCheck | undertale.py:201-212 | the check against the heart keeps the index, the roster, the flags, the player bullets, the cadence counter, the heart's position and velocity and the player sprite; a heart reported down has no hit points left |
| Frame.PlayerWalked | undertale.py:302-305 | the player sprite ends inside the window and nothing else changes |
| Frame.HeartMoved | undertale.py:307-310 | the heart ends inside the battle box, exactly one velocity step further when that step stays inside, and nothing else changes |
| Frame.EnemyMoved | undertale.py:312-314 | only the current roster entry changes, to its bounce step |
| Frame.FireTicked | undertale.py:315-329 | the current roster entry and the shared counter become those of one fire-cycle step; no other entry changes; the enemy bullets keep their prefix and gain exactly one bullet, spawned below the enemy with the drawn velocity, when the step fires; nothing else changes |
| Frame.BulletsAdvanced | undertale.py:168-179 | afterwards every bullet of both collections is inside its owner's bounds, neither collection grows, and nothing else changes |
| Frame.EnemyDefeated | undertale.py:334-346 | the index advances by one, the defeat is announced for 120 frames and both collections are empty; past the last enemy the battle is won and ended with the roster kept; otherwise the flags are kept and only the next enemy's fire cycle is re-armed; the player, the heart and the cadence counter are untouched |
| Frame.PlayerHitsResolved | undertale.py:333-346 | the index stays or advances by one; if it stays, the flags and the enemy bullets are kept; if it advances, both collections are empty and the defeat is announced; hit points, the cadence counter, the roster size, the heart and the player sprite are kept |
| Frame.GameLost | undertale.py:349-352 | game over is announced for 120 frames, the battle and enemy flags are cleared, and nothing else changes |
| Frame.EnemyHitsResolved | undertale.py:348-354 | the player loses 2 hit points or none; the hit that takes the last hit points ends the battle, announces game over and empties both collections; while hit points are left the flags are kept; the roster, the index, the cadence counter, the heart and the player sprite are kept |
| Frame.HitsResolved | undertale.py:333-354 | with player bullets resolved before enemy bullets, the index moves by at most one, the player loses 2 hit points or none, and the roster size, the cadence counter, the heart and the player sprite are kept |
| Frame.EnemyTurnDone | undertale.py:312-354 | the current enemy's turn moves the index by at most one, costs the player 2 hit points or none, keeps the roster size, and leaves the heart, its velocity, the player sprite and the started and paused flags alone |
| Frame.BattleFrameDone | undertale.py:306-373 | a battle frame leaves the heart inside the box and the player sprite in place, moves the index by at most one, costs the player 2 hit points or none, and keeps the heart's velocity and the started and paused flags |
| Frame.Ticked | undertale.py:295-373 | the start menu, the pause overlay and the win screen leave the state as it is; no frame changes the started or paused flag or the heart's velocity |
| FrameProperties.HeartMovedKeepsInvariant | undertale.py:307-310 | moving the heart keeps the invariant |
| FrameProperties.EnemyActedKeepsInvariant | undertale.py:312-329 | the current enemy's move and fire step keep the invariant |
| FrameProperties.BulletsAdvancedKeepsInvariant | undertale.py:168-179 | advancing and pruning both collections keeps the invariant |
| FrameProperties.EnemyHitCheckFirstHitWins | undertale.py:188-199 | with no player bullet on the enemy nothing changes; otherwise exactly the first hitting bullet is removed, the enemy loses the drawn damage once, the hit is announced, and the enemy is down exactly when its hit points are gone |
| FrameProperties.HeartHitCheckFirstHitWins | undertale.py:201-212 | with no enemy bullet on the heart nothing changes; otherwise exactly the first hitting bullet is removed, the player loses 2 hit points once, the hit is announced, and the heart is down exactly when its hit points are gone |
| FrameProperties.EnemyHitCheckOutcome | undertale.py:188-199 | after the check against the current enemy, an enemy not down keeps the invariant, and one that is down leaves exactly the later enemies alive |
| FrameProperties.EnemyDefeatedKeepsInvariant | undertale.py:334-346 | the defeat branch keeps the invariant, moving to the next enemy or to the win |
| FrameProperties.PlayerHitsKeepInvariant | undertale.py:333-346 | resolving the player bullets keeps the invariant |
| FrameProperties.EnemyHitsKeepInvariant | undertale.py:348-354 | resolving the enemy bullets keeps the invariant |
| FrameProperties.EnemyTurnKeepsInvariant | undertale.py:312-354 | the current enemy's whole turn keeps the invariant |
| FrameProperties.TickKeepsInvariant | undertale.py:295-354 | no frame breaks the invariant |
| FrameProperties.FrozenScreensChangeNothing | undertale.py:295-300 | the start menu, the pause overlay and the win screen change nothing |
| FrameProperties.FreeRoamMovesOnlyPlayer | undertale.py:302-305 | a free-roam frame moves the player sprite by the held keys and changes nothing else |
| FrameProperties.NoEnemyBulletsNoHit | undertale.py:201-212 | with no enemy bullets the heart check changes nothing |
| FrameProperties.FrameIndexStep | undertale.py:333-346 | in one frame the enemy index moves forward by at most one; when it moves, both collections are empty and the defeat is on the dialogue line |
| FrameProperties.FrameHpStep | undertale.py:348-354 | in one frame the player loses 2 hit points or none |
| FrameProperties.LethalHitEndsBattle | undertale.py:348-354 | the frame that takes the player's last hit points ends the battle without a win, clears both collections and shows game over for its full countdown |
| FrameProperties.LastDefeatWinsBattle | undertale.py:334-346 | the frame that wins the battle has the index at the roster size, ends the battle, clears both collections and shows the defeat for its full countdown |
| FrameProperties.DefeatMovesToNextEnemy | undertale.py:333-346 | a lethal hit on an enemy that is not the last moves the index to the next enemy, clears both collections, re-arms only the next enemy's fire cycle, and keeps the flags and all other enemies |
| FrameProperties.DefeatOfLastEnemyWins | undertale.py:333-346 | a lethal hit on the last enemy wins the battle, ends it and clears both collections |
| FrameProperties.LastHitLosesBattle | undertale.py:348-354 | a hit on a player with 2 hit points or fewer leaves none, ends the battle without a win, shows game over and clears both collections |
| Session.Game.constructor | undertale.py:49-69 | the object starts as the initial state: sprites centred, full hit points, start menu, no bullets, blank dialogue, the three enemies, index and cadence counter at zero; the invariant holds |
| Session.Game.SetDialogue | undertale.py:112-116 | the new state is the old one with the message announced for 120 frames |
| Session.Game.CountDownDialogue | undertale.py:230-238 | the new state is the old one with the dialogue counted down |
| Session.Game.HandleHeartMovement | undertale.py:132-148 | the new state is the old one with the heart steered by the event |
| Session.Game.ResetEnemies | undertale.py:97-110 | the loop resets every roster entry in place, in roster order, and changes nothing else |
| Session.Game.ResetGame | undertale.py:82-95 | the new state is the retry state: full hit points, in a battle against the first enemy, no bullets, no win, blank dialogue, a reset roster, and the heart where it was |
| Session.Game.SetBattleMode | undertale.py:279-280 | only the battle and enemy flags change, both to the given value |
| Session.Game.ClearBullets | undertale.py:281-282 | only the two collections change, both to empty |
| Session.Game.RecentreHeart | undertale.py:283 | only the heart moves, to the centre |
| Session.Game.RestartProgress | undertale.py:284-285 | only the index and the player's hit points change, to zero and full |
| Session.Game.ToggleBattleMode | undertale.py:278-287 | the new state has the battle and enemy flags flipped together, both collections cleared, the heart re-centred, the index and hit points restored, and the roster reset only when entering a battle |
| Session.Game.FirePlayerBullet | undertale.py:288-289 | the new state has one player bullet, spawned at the heart, appended |
| Session.Game.PerformKey | undertale.py:273-291 | the new state is the action the dispatch picks applied to the old state: start, pause flip, battle toggle, bullet fired, retry, or nothing |
| Session.Game.HandleEvent | undertale.py:273-293 | the new state is the key's action followed by the heart's steering when an unpaused, unwon battle is running afterwards; the invariant is kept |
| Session.Game.MoveHeart | undertale.py:307-310 | the new state has the heart moved by its velocity and pulled back into the box |
| Session.Game.MoveCurrentEnemy | undertale.py:312-314 | the new state has the current roster entry bounced once and nothing else changed |
| Session.Game.FireCycle | undertale.py:315-329 | the new state has the current enemy and the shared counter stepped through the fire cycle, and a fired bullet appended with the drawn velocity |
| Session.Game.MoveAndFire | undertale.py:312-329 | the new state has the current enemy bounced, then stepped through its fire cycle only if it has hit points left |
| Session.Game.UpdateBullets | undertale.py:168-179 | the new state has each collection moved and pruned |
| Session.Game.CheckEnemyCollision | undertale.py:188-199 | the new state and the result are those of the check against the current enemy: the first hitting player bullet removed, the damage dealt and announced, and whether the enemy is down |
| Session.Game.CheckHeartCollision | undertale.py:201-212 | the new state and the result are those of the check against the heart: the first hitting enemy bullet removed, 2 hit points lost and announced, and whether the player is down |
| Session.Game.DefeatCurrentEnemy | undertale.py:334-346 | the new state has the defeat announced, the index advanced, both collections cleared, and either the battle won and ended or only the next enemy's fire cycle re-armed |
| Session.Game.ResolvePlayerHits | undertale.py:333-346 | the new state is the check against the current enemy followed by the defeat branch when it is down |
| Session.Game.LoseBattle | undertale.py:349-352 | the new state has game over announced and the battle ended without a win |
| Session.Game.ResolveEnemyHits | undertale.py:348-354 | the new state is the check against the heart followed, when the heart is down, by game over if no hit points are left and the clearing of both collections |
| Session.Game.ResolveHits | undertale.py:333-354 | the new state is the player bullets resolved first and the enemy bullets second |
| Session.Game.EnemyPhase | undertale.py:312-354 | the new state is the enemy's move and fire step, then the bullets' advance and prune, then the hits resolved |
| Session.Game.BattleFrame | undertale.py:306-373 | the new state is the heart moved, then the current enemy's turn while one is active, then the dialogue counted down if the battle is still running and not won |
| Session.Game.Tick | undertale.py:295-373 | the new state is the old one on the start menu, the pause overlay and the win screen, the player sprite walked in free roam, and a battle frame otherwise; the invariant is kept |

## Left out

- Rendering, assets, fonts and the window (`undertale.py:1-46`, `71-79`, `214-262`, and the drawing in `356-377`) are not modelled. The only exception is the dialogue countdown and the condition under which it is drawn.
- Event polling, the QUIT event and the frame clock are not modelled. `Session.Game.HandleEvent` handles one event and `Session.Game.Tick` handles one frame. The caller supplies the events and the polled arrow-key state.
- The random bullet direction and speed in `spawn_enemy_bullet`, and the random damage in `check_enemy_collision`, become parameters. The sine and cosine are not modelled.
- Bullets.SpawnEnemyBullet: does not constrain the velocity to the ±45° cone with speed 2..5, because the trigonometry is left out. Any velocity is accepted.
- Collision.FirstHit: hit tests use the real-valued boxes. pygame's `Rect` truncates coordinates to integers. The model's test is strict overlap of the exact boxes. It can differ from the game by under one pixel when a bullet's or an enemy's position is fractional.
- The dialogue text is the reported event (`GameState.Message`), not the formatted string.
- The enemy record's sprite image is not modelled.
- Python integers are unbounded, like Dafny's, so no width or wrap-around is modelled. Enemy positions and bullets are real numbers, because enemy and bullet speeds are fractional. Python floats are IEEE doubles. Their rounding is not modelled: `real` arithmetic is exact.
