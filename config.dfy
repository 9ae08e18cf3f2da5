/** Screen, arena and battle constants of the game. */
module Config {
  const WIDTH: int := 800
  const HEIGHT: int := 600

  const PLAYER_SPEED: int := 5
  const HEART_SPEED: int := 5
  const PLAYER_BULLET_SPEED: int := 5
  const PLAYER_MAX_HP: int := 20
  const ENEMY_BULLET_DAMAGE: int := 2

  /** Damage a player bullet deals to an enemy is drawn from this closed range. */
  const MIN_HIT_DAMAGE: int := 5
  const MAX_HIT_DAMAGE: int := 10

  /** The battle box, a wide rectangle shifted 50 pixels below the screen centre. */
  const BOX_WIDTH: int := 400
  const BOX_HEIGHT: int := 200
  const BOX_X: int := 200   // (WIDTH - BOX_WIDTH) / 2
  const BOX_Y: int := 250   // (HEIGHT - BOX_HEIGHT) / 2 + 50

  /** Side of the free-roam player sprite and of an enemy sprite. */
  const SPRITE_SIZE: int := 144
  /** Half-extents of the hitboxes. */
  const ENEMY_HALF: int := 72
  const HEART_HALF: int := 24
  const BULLET_HALF: int := 10

  /** Enemy fire cycle: shots per volley, rest length and shared cadence, in ticks. */
  const SHOT_CAP: int := 8
  const REST_TICKS: int := 300
  const CADENCE: int := 10

  /** A dialogue message stays up for two seconds at 60 frames per second. */
  const DIALOGUE_TICKS: int := 120
}
