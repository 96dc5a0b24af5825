/** The fixed tunables of the game (the GameConfig object of game.js). */
module GameConfig {
  /** Score at which a game is won. */
  const WinScore := 10

  /** Size of every enemy's bounding box, in pixels. */
  const DefaultEnemyWidth := 80
  const DefaultEnemyHeight := 80

  /** Size the cursor image is drawn at; only the drawing code uses it. */
  const DefaultCursorSize := 40

  /** An enemy spawns once more than this many milliseconds have passed since the last spawn. */
  const SpawnInterval := 2000

  /** Smallest vertical spawn position. */
  const MinSpawnY := 100
}
