/** The game controller (class Game of game.js): the settings / playing / victory state
    machine, the per-frame tick (spawning, moving, expiring) and shot resolution. */
module Shooter {
  import opened GameConfig
  import opened Sprite
  import opened Enemies
  import opened Effects

  datatype GameState = Settings | Playing | Victory

  /** The frame lists the asset manager holds when the game reads them. */
  datatype Assets = Assets(enemyMoveFrames: seq<Image>, enemyDeathFrames: seq<Image>,
                           fireEffectFrames: seq<Image>)

  /** The two tunables: enemy speed (pixels per tick) and frame duration (ms), both
      integers as the sliders deliver them. */
  datatype GameSettings = GameSettings(enemySpeed: int, animSpeed: int)

  /** Everything the game reads from the asset manager, at the moment it reads it. */
  datatype Provider = Provider(assets: Assets, settings: GameSettings)

  /** The two random draws of spawnEnemy: the vertical position and the direction
      (1: left to right, -1: right to left). */
  datatype SpawnDraw = SpawnDraw(y: int, direction: int)

  /** The enemy spawnEnemy creates: just off the edge it enters from, alive, with a looping
      move animation when there are move frames and a one-shot death animation, both at the
      frame duration and the speed in force at spawn time. */
  function Spawned(canvasWidth: int, draw: SpawnDraw, p: Provider): EnemyModel
  {
    var animSpeed := p.settings.animSpeed as real;
    EnemyModel(if draw.direction == 1 then -DefaultEnemyWidth else canvasWidth,
               draw.y, draw.direction, p.settings.enemySpeed, Alive,
               if |p.assets.enemyMoveFrames| > 0
               then Some(Initial(|p.assets.enemyMoveFrames|, animSpeed)) else None,
               Initial(|p.assets.enemyDeathFrames|, animSpeed).(looping := false))
  }

  /** The muzzle-flash effect handleShot creates: a one-shot animation of the fire frames
      at half the configured frame duration. */
  function Flash(p: Provider): EffectModel
  {
    EffectModel(Initial(|p.assets.fireEffectFrames|, p.settings.animSpeed as real / 2.0)
                  .(looping := false), false)
  }

  /** A new enemy enters with its leading edge on the canvas edge it comes from; it is
      not out of bounds, and it is still not after its first tick unless its speed
      exceeds the canvas width plus a box width. */
  lemma SpawnedOnEdge(canvasWidth: int, draw: SpawnDraw, p: Provider, now: int)
    requires canvasWidth >= 0 && (draw.direction == 1 || draw.direction == -1)
    ensures var m := Spawned(canvasWidth, draw, p);
      (if draw.direction == 1 then m.x + DefaultEnemyWidth == 0 else m.x == canvasWidth) &&
      !Outside(m.x, DefaultEnemyWidth, m.direction, canvasWidth)
    ensures var m := Stepped(Spawned(canvasWidth, draw, p), now);
      p.settings.enemySpeed <= canvasWidth + DefaultEnemyWidth ==>
        m.state == Alive && !Outside(m.x, DefaultEnemyWidth, m.direction, canvasWidth)
  {
  }

  /** No element occurs twice. */
  predicate NoDup<T(==)>(s: seq<T>) {
    forall i, j :: 0 <= i < j < |s| ==> s[i] != s[j]
  }

  /** Appending an element that is not there yet keeps a list free of repetition. */
  lemma NoDupAppend<T>(s: seq<T>, x: T)
    requires NoDup(s) && x !in s
    ensures NoDup(s + [x])
  {
    assert forall i :: 0 <= i < |s| ==> (s + [x])[i] == s[i];
  }

  /** A tick removes an enemy that is dead, or alive and out of bounds. */
  predicate Leaves(e: Enemy, canvasWidth: int)
    reads e
  {
    e.state == Dead || (e.IsOutOfBounds(canvasWidth) && e.state == Alive)
  }

  /** The enemies a tick keeps, in their order. */
  function Survivors(s: seq<Enemy>, canvasWidth: int): seq<Enemy>
    reads s
    decreases |s|
  {
    if s == [] then []
    else (if Leaves(s[0], canvasWidth) then [] else [s[0]]) + Survivors(s[1..], canvasWidth)
  }

  /** The effects a tick keeps, in their order. */
  function Unfinished(s: seq<Effect>): seq<Effect>
    reads s
    decreases |s|
  {
    if s == [] then []
    else (if s[0].isFinished then [] else [s[0]]) + Unfinished(s[1..])
  }

  /** A tick keeps exactly the enemies that are neither dead nor alive off-screen. */
  lemma {:induction false} SurvivorsMembers(s: seq<Enemy>, canvasWidth: int)
    ensures forall e :: e in Survivors(s, canvasWidth) <==> e in s && !Leaves(e, canvasWidth)
    decreases |s|
  {
    if s != [] {
      SurvivorsMembers(s[1..], canvasWidth);
      assert forall e :: e in s <==> e == s[0] || e in s[1..];
    }
  }

  /** Filtering distributes over concatenation: survivors keep their relative order. */
  lemma {:induction false} SurvivorsKeepOrder(a: seq<Enemy>, b: seq<Enemy>, canvasWidth: int)
    ensures Survivors(a + b, canvasWidth) == Survivors(a, canvasWidth) + Survivors(b, canvasWidth)
    decreases |a|
  {
    if a != [] {
      assert (a + b)[1..] == a[1..] + b;
      SurvivorsKeepOrder(a[1..], b, canvasWidth);
    } else {
      assert a + b == b;
    }
  }

  /** When no enemy has to leave, a tick keeps the list as it is. */
  lemma {:induction false} SurvivorsKeepAll(s: seq<Enemy>, canvasWidth: int)
    requires forall j :: 0 <= j < |s| ==> !Leaves(s[j], canvasWidth)
    ensures Survivors(s, canvasWidth) == s
    decreases |s|
  {
    if s != [] {
      SurvivorsKeepAll(s[1..], canvasWidth);
      assert s == [s[0]] + s[1..];
    }
  }

  /** Filtering never repeats an enemy. */
  lemma {:induction false} SurvivorsNoDup(s: seq<Enemy>, canvasWidth: int)
    requires NoDup(s)
    ensures NoDup(Survivors(s, canvasWidth))
    decreases |s|
  {
    if s != [] {
      SurvivorsNoDup(s[1..], canvasWidth);
      SurvivorsMembers(s[1..], canvasWidth);
      assert s[0] !in s[1..];
    }
  }

  /** Survivors of a suffix, with its first element unfolded. */
  lemma SurvivorsStep(s: seq<Enemy>, i: nat, canvasWidth: int)
    requires i < |s|
    ensures Survivors(s[i..], canvasWidth)
         == (if Leaves(s[i], canvasWidth) then [] else [s[i]]) + Survivors(s[i + 1..], canvasWidth)
  {
    assert s[i..][1..] == s[i + 1..];
  }

  /** A tick keeps exactly the effects that are not finished. */
  lemma {:induction false} UnfinishedMembers(s: seq<Effect>)
    ensures forall f :: f in Unfinished(s) <==> f in s && !f.isFinished
    decreases |s|
  {
    if s != [] {
      UnfinishedMembers(s[1..]);
      assert forall f :: f in s <==> f == s[0] || f in s[1..];
    }
  }

  /** Filtering never repeats an effect. */
  lemma {:induction false} UnfinishedNoDup(s: seq<Effect>)
    requires NoDup(s)
    ensures NoDup(Unfinished(s))
    decreases |s|
  {
    if s != [] {
      UnfinishedNoDup(s[1..]);
      UnfinishedMembers(s[1..]);
      assert s[0] !in s[1..];
    }
  }

  /** Unfinished of a suffix, with its first element unfolded. */
  lemma UnfinishedStep(s: seq<Effect>, i: nat)
    requires i < |s|
    ensures Unfinished(s[i..]) == (if s[i].isFinished then [] else [s[i]]) + Unfinished(s[i + 1..])
  {
    assert s[i..][1..] == s[i + 1..];
  }

  /** Splicing out the element between a and b leaves a + b. */
  lemma SpliceOut<T>(a: seq<T>, x: T, b: seq<T>)
    ensures (a + [x] + b)[..|a|] + (a + [x] + b)[|a| + 1..] == a + b
  {
    assert (a + [x] + b)[..|a|] == a;
    assert (a + [x] + b)[|a| + 1..] == b;
  }

  /** The first enemy, in list order, that the point hits; |s| when there is none. */
  function FirstHit(s: seq<Enemy>, px: int, py: int): (k: nat)
    reads s
    ensures k <= |s|
    ensures k < |s| ==> s[k].CheckHit(px, py)
    ensures forall j :: 0 <= j < k ==> !s[j].CheckHit(px, py)
    decreases |s|
  {
    if s == [] then 0
    else if s[0].CheckHit(px, py) then 0
    else 1 + FirstHit(s[1..], px, py)
  }

  /** One pass of the enemy loop of gameLoop, on the list being spliced: the i-th enemy of
      `orig` (the list as the loop found it; the first i + 1 are still in place) is updated,
      and spliced out when it is dead, or alive and off-screen. */
  method StepEnemy(list: seq<Enemy>, i: nat, now: int, canvasWidth: int, ghost orig: seq<Enemy>)
    returns (list': seq<Enemy>)
    requires i < |orig|
    requires list == orig[..i + 1] + Survivors(orig[i + 1..], canvasWidth)
    requires forall j :: i < j < |orig| ==> orig[j] != orig[i]
    modifies orig[i]
    ensures list' == orig[..i] + Survivors(orig[i..], canvasWidth)
    ensures orig[i].Model() == Stepped(old(orig[i].Model()), now)
  {
    ghost var rest := Survivors(orig[i + 1..], canvasWidth);
    assert orig[..i + 1] == orig[..i] + [orig[i]];
    var enemy := list[i];
    enemy.Update(now);
    assert rest == Survivors(orig[i + 1..], canvasWidth);
    SurvivorsStep(orig, i, canvasWidth);
    SpliceOut(orig[..i], enemy, rest);
    list' := list;
    if enemy.state == Dead {
      list' := list'[..i] + list'[i + 1..];
    }
    if enemy.IsOutOfBounds(canvasWidth) && enemy.state == Alive {
      list' := list'[..i] + list'[i + 1..];
    }
  }

  /** One pass of the effect loop of gameLoop: the i-th effect of `orig` is updated, and
      spliced out when it has finished. */
  method StepEffect(list: seq<Effect>, i: nat, now: int, ghost orig: seq<Effect>)
    returns (list': seq<Effect>)
    requires i < |orig|
    requires list == orig[..i + 1] + Unfinished(orig[i + 1..])
    requires forall j :: i < j < |orig| ==> orig[j] != orig[i]
    modifies orig[i]
    ensures list' == orig[..i] + Unfinished(orig[i..])
    ensures orig[i].Model() == EffectStepped(old(orig[i].Model()), now)
  {
    ghost var rest := Unfinished(orig[i + 1..]);
    assert orig[..i + 1] == orig[..i] + [orig[i]];
    var effect := list[i];
    effect.Update(now);
    assert rest == Unfinished(orig[i + 1..]);
    UnfinishedStep(orig, i);
    SpliceOut(orig[..i], effect, rest);
    list' := list;
    if effect.isFinished {
      list' := list'[..i] + list'[i + 1..];
    }
  }

  /** The Game object. The canvas, the pointer position and the scheduling of frames are
      outside it: a tick is a call of Tick with the time and the canvas width. */
  class Game {
    var state: GameState
    var score: int
    var enemies: seq<Enemy>
    var effects: seq<Effect>
    var lastSpawnTime: int

    /** Every enemy and every effect is in its list once (each was pushed once, new). */
    ghost predicate Valid()
      reads this
    {
      NoDup(enemies) && NoDup(effects)
    }

    constructor ()
      ensures Valid()
      ensures state == Settings && score == 0 && enemies == [] && effects == []
      ensures lastSpawnTime == 0
    {
      state := Settings;
      score := 0;
      enemies := [];
      effects := [];
      lastSpawnTime := 0;
    }

    /** handleShot(x, y): a flash effect when there are fire frames, then the first enemy
        in list order that the shot hits dies, the score goes up by one, and the game is
        won once the score reaches WinScore. It does not look at the game state. */
    method HandleShot(px: int, py: int, p: Provider)
      requires Valid()
      modifies this, enemies
      ensures Valid()
      ensures enemies == old(enemies) && lastSpawnTime == old(lastSpawnTime)
      // hit: exactly the first enemy hit dies, the score rises by one, maybe victory
      ensures var k := old(FirstHit(enemies, px, py));
        k < |enemies| ==>
          enemies[k].Model() == Killed(old(enemies[k].Model())) &&
          score == old(score) + 1 &&
          state == (if score >= WinScore then GameState.Victory else old(state))
      // miss: no score change and no state change
      ensures old(FirstHit(enemies, px, py)) == |enemies| ==>
        score == old(score) && state == old(state)
      // no other enemy changes
      ensures forall i :: 0 <= i < |enemies| && i != old(FirstHit(enemies, px, py)) ==>
        enemies[i].Model() == old(enemies[i].Model())
      // one new effect at the shot exactly when there are fire frames
      ensures |effects| == |old(effects)| + (if |p.assets.fireEffectFrames| > 0 then 1 else 0)
      ensures effects[..|old(effects)|] == old(effects)
      ensures |effects| > |old(effects)| ==>
        var f := effects[|old(effects)|];
        fresh(f) && f.x == px && f.y == py && f.Model() == Flash(p)
    {
      if |p.assets.fireEffectFrames| > 0 {
        var fireAnim := Initial(|p.assets.fireEffectFrames|, p.settings.animSpeed as real / 2.0);
        var effect := new Effect(px, py, fireAnim);
        NoDupAppend(effects, effect);
        effects := effects + [effect];
      }
      ghost var k := FirstHit(enemies, px, py);
      label Scan:
      var i := 0;
      while i < |enemies|
        invariant 0 <= i <= k
        invariant unchanged@Scan(this) && unchanged@Scan(enemies)
      {
        var enemy := enemies[i];
        if enemy.CheckHit(px, py) {
          enemy.Die();
          score := score + 1;
          if score >= WinScore {
            Victory();
          }
          break;
        }
        i := i + 1;
      }
    }

    /** spawnEnemy(), with its random draws as a parameter: one new enemy at the end. */
    method SpawnEnemy(canvasWidth: int, draw: SpawnDraw, p: Provider)
      requires Valid()
      modifies this
      ensures Valid()
      ensures |enemies| == |old(enemies)| + 1 && enemies[..|old(enemies)|] == old(enemies)
      ensures fresh(enemies[|old(enemies)|])
      ensures enemies[|old(enemies)|].Model() == Spawned(canvasWidth, draw, p)
      ensures state == old(state) && score == old(score) && effects == old(effects)
      ensures lastSpawnTime == old(lastSpawnTime)
    {
      var x := if draw.direction == 1 then -DefaultEnemyWidth else canvasWidth;
      var moveAnim: Option<Anim> := None;
      if |p.assets.enemyMoveFrames| > 0 {
        moveAnim := Some(Initial(|p.assets.enemyMoveFrames|, p.settings.animSpeed as real));
      }
      var enemy := new Enemy(x, draw.y, draw.direction, moveAnim, p.assets.enemyDeathFrames,
                             p.settings.enemySpeed, p.settings.animSpeed);
      NoDupAppend(enemies, enemy);
      enemies := enemies + [enemy];
    }

    /** The enemy half of gameLoop: every enemy is updated, from the last to the first,
        and the dead and the alive-but-off-screen ones are spliced out. */
    method UpdateEnemies(now: int, canvasWidth: int)
      requires Valid()
      modifies this, enemies
      ensures Valid()
      ensures forall j :: 0 <= j < |old(enemies)| ==>
        old(enemies)[j].Model() == Stepped(old(enemies[j].Model()), now)
      ensures enemies == Survivors(old(enemies), canvasWidth)
      ensures effects == old(effects)
      ensures state == old(state) && score == old(score) && lastSpawnTime == old(lastSpawnTime)
    {
      ghost var orig := enemies;
      var list := enemies;
      var i := |list|;
      while i > 0
        invariant 0 <= i <= |orig| && NoDup(orig)
        invariant list == orig[..i] + Survivors(orig[i..], canvasWidth)
        invariant unchanged(this)
        invariant forall j :: 0 <= j < |orig| ==>
          orig[j].Model() == if j < i then old(orig[j].Model())
                             else Stepped(old(orig[j].Model()), now)
      {
        i := i - 1;
        list := StepEnemy(list, i, now, canvasWidth, orig);
      }
      enemies := list;
      SurvivorsNoDup(orig, canvasWidth);
    }

    /** The effect half of gameLoop: every effect is updated, from the last to the first,
        and the finished ones are spliced out. */
    method UpdateEffects(now: int)
      requires Valid()
      modifies this, effects
      ensures Valid()
      ensures forall j :: 0 <= j < |old(effects)| ==>
        old(effects)[j].Model() == EffectStepped(old(effects[j].Model()), now)
      ensures effects == Unfinished(old(effects))
      ensures enemies == old(enemies)
      ensures state == old(state) && score == old(score) && lastSpawnTime == old(lastSpawnTime)
    {
      ghost var orig := effects;
      var list := effects;
      var i := |list|;
      while i > 0
        invariant 0 <= i <= |orig| && NoDup(orig)
        invariant list == orig[..i] + Unfinished(orig[i..])
        invariant unchanged(this)
        invariant forall j :: 0 <= j < |orig| ==>
          orig[j].Model() == if j < i then old(orig[j].Model())
                             else EffectStepped(old(orig[j].Model()), now)
      {
        i := i - 1;
        list := StepEffect(list, i, now, orig);
      }
      effects := list;
      UnfinishedNoDup(orig);
    }

    /** gameLoop(currentTime), one frame of it. Nothing happens unless the game is being
        played. Otherwise one enemy spawns when more than SpawnInterval ms have passed since
        the last spawn; then every enemy (the new one included) and every effect is updated
        once, and the dead, the alive-but-off-screen enemies and the finished effects are
        removed, the rest keeping their order. `spawned` names the new enemy, if any. */
    method Tick(now: int, canvasWidth: int, draw: SpawnDraw, p: Provider)
      returns (ghost spawned: Option<Enemy>)
      requires Valid()
      modifies this, enemies, effects
      ensures Valid()
      ensures old(state) != Playing ==>
        spawned == None && unchanged(this) && unchanged(old(enemies)) && unchanged(old(effects))
      // spawning: exactly when more than SpawnInterval ms have passed since the last spawn
      ensures old(state) == Playing ==>
        (spawned.Some? <==> now - old(lastSpawnTime) > SpawnInterval) &&
        lastSpawnTime == (if spawned.Some? then now else old(lastSpawnTime))
      // the new enemy is updated in the same frame it was spawned in
      ensures old(state) == Playing && spawned.Some? ==>
        fresh(spawned.value) && spawned.value.Model() == Stepped(Spawned(canvasWidth, draw, p), now)
      // every enemy is updated once; the dead and the alive-but-off-screen leave
      ensures old(state) == Playing ==>
        forall j :: 0 <= j < |old(enemies)| ==>
          old(enemies)[j].Model() == Stepped(old(enemies[j].Model()), now)
      ensures old(state) == Playing ==>
        enemies == Survivors(old(enemies) + (if spawned.Some? then [spawned.value] else []),
                             canvasWidth)
      // every effect is updated once; the finished leave
      ensures old(state) == Playing ==>
        forall j :: 0 <= j < |old(effects)| ==>
          old(effects)[j].Model() == EffectStepped(old(effects[j].Model()), now)
      ensures old(state) == Playing ==> effects == Unfinished(old(effects))
      ensures state == old(state) && score == old(score)
    {
      spawned := None;
      if state != Playing {
        return;
      }
      spawned := SpawnIfDue(now, canvasWidth, draw, p);
      ghost var pending := enemies;
      assert forall j :: 0 <= j < |old(enemies)| ==> pending[j] == old(enemies)[j];
      assert spawned.Some? ==> pending[|old(enemies)|] == spawned.value;
      UpdateEnemies(now, canvasWidth);
      label Moved:
      UpdateEffects(now);
      assert forall j :: 0 <= j < |pending| ==> pending[j].Model() == old@Moved(pending[j].Model());
      assert Survivors(pending, canvasWidth) == old@Moved(Survivors(pending, canvasWidth));
    }

    /** The spawning step of gameLoop: one new enemy at the end when more than
        SpawnInterval ms have passed since the last spawn, which then becomes now. */
    method SpawnIfDue(now: int, canvasWidth: int, draw: SpawnDraw, p: Provider)
      returns (ghost spawned: Option<Enemy>)
      requires Valid()
      modifies this
      ensures Valid()
      ensures spawned.Some? <==> now - old(lastSpawnTime) > SpawnInterval
      ensures enemies == old(enemies) + (if spawned.Some? then [spawned.value] else [])
      ensures spawned.Some? ==> fresh(spawned.value) && spawned.value.Model() == Spawned(canvasWidth, draw, p)
      ensures lastSpawnTime == (if spawned.Some? then now else old(lastSpawnTime))
      ensures state == old(state) && score == old(score) && effects == old(effects)
    {
      spawned := None;
      if now - lastSpawnTime > SpawnInterval {
        SpawnEnemy(canvasWidth, draw, p);
        spawned := Some(enemies[|enemies| - 1]);
        assert enemies == old(enemies) + [spawned.value];
        lastSpawnTime := now;
      }
    }

    /** start(): a fresh game in the playing state, then its first tick, at time 0, which
        spawns nothing since no more than SpawnInterval ms have passed since time 0. */
    method Start(canvasWidth: int, draw: SpawnDraw, p: Provider)
      modifies this
      ensures Valid()
      ensures state == Playing && score == 0 && enemies == [] && effects == []
      ensures lastSpawnTime == 0
    {
      state := Playing;
      score := 0;
      enemies := [];
      effects := [];
      lastSpawnTime := 0;
      ghost var spawned := Tick(0, canvasWidth, draw, p);
    }

    /** victory(): the state becomes Victory; nothing else changes (the enemies stay). */
    method Victory()
      modifies this
      ensures state == GameState.Victory
      ensures score == old(score) && enemies == old(enemies) && effects == old(effects)
      ensures lastSpawnTime == old(lastSpawnTime)
    {
      state := GameState.Victory;
    }

    /** returnToSettings(): back to the settings state with no enemies, no effects and a
        zero score; the spawn timer is left as it was. */
    method ReturnToSettings()
      modifies this
      ensures Valid()
      ensures state == Settings && score == 0 && enemies == [] && effects == []
      ensures lastSpawnTime == old(lastSpawnTime)
    {
      state := Settings;
      enemies := [];
      effects := [];
      score := 0;
    }
  }
}
