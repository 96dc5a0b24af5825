/** Whole-game scenarios: a game driven from the outside through start, ticks and shots,
    with their expected outcomes. */
module Scenarios {
  import opened GameConfig
  import opened Sprite
  import opened Enemies
  import opened Shooter

  /** Start a game, then tick at 2001 and at 4002 ms with the same spawn draw (entering from
      the left). Reports the number of enemies after start and after each tick; the game is
      left with the two enemies, the older one two steps in and the newer one step in. */
  method TwoSpawns(canvasWidth: int, y: int, p: Provider)
    returns (g: Game, counts: seq<nat>)
    requires 0 <= p.settings.enemySpeed && 2 * p.settings.enemySpeed <= canvasWidth + DefaultEnemyWidth
    ensures fresh(g) && g.Valid() && g.state == Playing && g.score == 0
    ensures counts == [0, 1, 2] && |g.enemies| == 2
    ensures fresh(g.enemies[0]) && fresh(g.enemies[1])
    ensures g.enemies[0].state == Alive && g.enemies[1].state == Alive
    ensures g.enemies[0].x == -DefaultEnemyWidth + 2 * p.settings.enemySpeed
    ensures g.enemies[1].x == -DefaultEnemyWidth + p.settings.enemySpeed
    ensures g.enemies[0].y == y && g.enemies[1].y == y
  {
    var draw := SpawnDraw(y, 1);
    g := new Game();
    g.Start(canvasWidth, draw, p);
    counts := [|g.enemies|];
    ghost var first := g.Tick(2001, canvasWidth, draw, p);
    SurvivorsKeepAll([first.value], canvasWidth);
    counts := counts + [|g.enemies|];
    ghost var second := g.Tick(4002, canvasWidth, draw, p);
    SurvivorsKeepAll([first.value, second.value], canvasWidth);
    counts := counts + [|g.enemies|];
  }

  /** The spawn timer on its own: start a game, then tick at 2001, 3000 and 4002 ms.
      Reports the last spawn time after start and after each tick: the first tick spawns
      (more than 2000 ms after time 0), the second does not (only 999 ms later), the third
      does. Nothing is assumed about the canvas, the draws or the speed, so the second
      spawn does not depend on where the first enemy has gone. */
  method SpawnTimeline(canvasWidth: int, draw: SpawnDraw, p: Provider)
    returns (spawnTimes: seq<int>)
    ensures spawnTimes == [0, 2001, 2001, 4002]
  {
    var g := new Game();
    g.Start(canvasWidth, draw, p);
    spawnTimes := [g.lastSpawnTime];
    ghost var first := g.Tick(2001, canvasWidth, draw, p);
    spawnTimes := spawnTimes + [g.lastSpawnTime];
    ghost var none := g.Tick(3000, canvasWidth, draw, p);
    spawnTimes := spawnTimes + [g.lastSpawnTime];
    ghost var second := g.Tick(4002, canvasWidth, draw, p);
    spawnTimes := spawnTimes + [g.lastSpawnTime];
  }

  /** Two enemies whose boxes overlap (the newer one lags the older by less than a box
      width): a shot at a point inside both kills only the first in list order. */
  method OverlapShot(canvasWidth: int, y: int, p: Provider)
    returns (inBoth: bool, first: EnemyState, second: EnemyState, score: int)
    requires 0 <= p.settings.enemySpeed <= DefaultEnemyWidth
    requires 2 * p.settings.enemySpeed <= canvasWidth + DefaultEnemyWidth
    ensures inBoth
    ensures first == Dying && second == Alive && score == 1
  {
    var g, _ := TwoSpawns(canvasWidth, y, p);
    var px := -DefaultEnemyWidth + 2 * p.settings.enemySpeed;
    inBoth := g.enemies[0].CheckHit(px, y) && g.enemies[1].CheckHit(px, y);
    g.HandleShot(px, y, p);
    first := g.enemies[0].state;
    second := g.enemies[1].state;
    score := g.score;
  }

  /** A game that has scored, then any run of further shots, then back to settings and
      playing again: the return clears the score and the two enemies still listed, and
      the new start leaves a zero score and no enemies or effects. Reports the score after
      the first hit, after the further shots, after the return and after the new start,
      and the enemy count before the return followed by the list sizes after it and after
      the new start. */
  method Replay(canvasWidth: int, y: int, p: Provider, shots: seq<(int, int)>)
    returns (scores: seq<int>, sizes: seq<nat>)
    requires 0 <= p.settings.enemySpeed <= DefaultEnemyWidth
    requires 2 * p.settings.enemySpeed <= canvasWidth + DefaultEnemyWidth
    ensures |scores| == 4 && scores[0] == 1 && scores[1] >= 1 && scores[2] == 0 && scores[3] == 0
    ensures sizes == [2, 0, 0, 0, 0]
  {
    var g, _ := TwoSpawns(canvasWidth, y, p);
    var draw := SpawnDraw(y, 1);
    ghost var listed := g.enemies;
    g.HandleShot(-DefaultEnemyWidth + 2 * p.settings.enemySpeed, y, p);
    scores := [g.score];
    var i := 0;
    while i < |shots|
      invariant g.Valid() && g.enemies == listed && g.score >= 1
    {
      g.HandleShot(shots[i].0, shots[i].1, p);
      i := i + 1;
    }
    scores := scores + [g.score];
    sizes := [|g.enemies|];
    g.ReturnToSettings();
    scores := scores + [g.score];
    sizes := sizes + [|g.enemies|, |g.effects|];
    g.Start(canvasWidth, draw, p);
    scores := scores + [g.score];
    sizes := sizes + [|g.enemies|, |g.effects|];
  }
}
